/**
 The unified index numbers users, items and three kinds of labels in five consecutive blocks, and
 travels as bytes: a type byte, then five name lists that the reader adds again one by one. Names are
 byte strings.
 */
module UnifiedIndex {
  import opened Seqs
  import opened Bytes
  import opened Dict

  type Name = seq<byte>

  const BLOCK_COUNT: nat := 5

  // ---------- numbering ----------

  /** First position of a name, or NOT_ID. */
  function Find(names: seq<Name>, name: Name): (y: int)
    ensures y == NOT_ID <==> name !in names
    ensures name in names ==> 0 <= y < |names| && names[y] == name
  {
    if names == [] then NOT_ID
    else if names[0] == name then 0
    else
      var y := Find(names[1..], name);
      assert names == [names[0]] + names[1..];
      if y == NOT_ID then NOT_ID else y + 1
  }

  /** A listed name has its position counted from an offset, any other one minus one. */
  predicate NumberedFrom(names: seq<Name>, offset: nat, name: Name, y: int) {
    if name in names then 0 <= y - offset < |names| && names[y - offset] == name else y == -1
  }

  function Total(blocks: seq<seq<Name>>): nat {
    if blocks == [] then 0 else |blocks[0]| + Total(blocks[1..])
  }

  /** The number of a name of kind k: its position after all earlier blocks. */
  function Number(blocks: seq<seq<Name>>, k: nat, name: Name): int
    requires k < |blocks|
  {
    var y := Find(blocks[k], name);
    if y == NOT_ID then NOT_ID else y + Total(blocks[..k])
  }

  lemma {:induction false} TotalConcat(a: seq<seq<Name>>, b: seq<seq<Name>>)
    ensures Total(a + b) == Total(a) + Total(b)
  {
    if a == [] {
      assert a + b == b;
    } else {
      assert (a + b)[1..] == a[1..] + b;
      TotalConcat(a[1..], b);
    }
  }

  /** Block k ends where block k + 1 begins, and no block reaches beyond the total. */
  lemma BlockEnds(blocks: seq<seq<Name>>, k: nat, m: nat)
    requires k < m <= |blocks|
    ensures Total(blocks[..k]) + |blocks[k]| <= Total(blocks[..m]) <= Total(blocks)
    ensures Total(blocks[..k + 1]) == Total(blocks[..k]) + |blocks[k]|
  {
    assert blocks[..k + 1] == blocks[..k] + [blocks[k]];
    TotalConcat(blocks[..k], [blocks[k]]);
    assert Total([blocks[k]]) == |blocks[k]| + Total([blocks[k]][1..]);
    assert blocks[..m] == blocks[..k + 1] + blocks[k + 1..m];
    TotalConcat(blocks[..k + 1], blocks[k + 1..m]);
    assert blocks == blocks[..m] + blocks[m..];
    TotalConcat(blocks[..m], blocks[m..]);
  }

  /** The block and the position that a number stands for. */
  function Locate(blocks: seq<seq<Name>>, x: nat): (r: (nat, nat))
    requires x < Total(blocks)
    ensures r.0 < |blocks| && r.1 < |blocks[r.0]| && x == Total(blocks[..r.0]) + r.1
    decreases |blocks|
  {
    if x < |blocks[0]| then (0, x)
    else
      var r := Locate(blocks[1..], x - |blocks[0]|);
      assert blocks[..r.0 + 1] == [blocks[0]] + blocks[1..][..r.0];
      (r.0 + 1, r.1)
  }

  ghost predicate AllDistinct(blocks: seq<seq<Name>>) {
    forall k :: 0 <= k < |blocks| ==> Distinct(blocks[k])
  }

  /**
   The numbering is a bijection between the known (kind, name) pairs and 0..Total: known names get
   numbers in range, unknown ones NOT_ID, different pairs get different numbers.
   */
  lemma NumberInjective(blocks: seq<seq<Name>>, k: nat, m: nat, a: Name, b: Name)
    requires k < |blocks| && m < |blocks|
    ensures Number(blocks, k, a) == NOT_ID <==> a !in blocks[k]
    ensures a in blocks[k] ==> 0 <= Number(blocks, k, a) < Total(blocks)
    ensures a in blocks[k] && b in blocks[m] ==> (Number(blocks, k, a) == Number(blocks, m, b) <==> k == m && a == b)
  {
    BlockEnds(blocks, k, |blocks|);
    if k < m {
      BlockEnds(blocks, k, m);
    } else if m < k {
      BlockEnds(blocks, m, k);
    }
  }

  /** Every number in range is the number of some known name, and of no other. */
  lemma NumberSurjective(blocks: seq<seq<Name>>, x: nat)
    requires AllDistinct(blocks) && x < Total(blocks)
    ensures var (k, i) := Locate(blocks, x);
            Number(blocks, k, blocks[k][i]) == x
  {
    var (k, i) := Locate(blocks, x);
    var y := Find(blocks[k], blocks[k][i]);
    assert Distinct(blocks[k]);
    assert y == i;
  }

  // ---------- bytes ----------

  /** Names whose lengths, and whose number, fit the 32-bit length fields. */
  predicate Writable(names: seq<Name>) {
    Fits(4, |names|) && forall n :: n in names ==> Fits(4, |n|)
  }

  function NameBytes(names: seq<Name>): seq<byte>
    requires forall n :: n in names ==> Fits(4, |n|)
  {
    if names == [] then [] else (Encode(4, |names[0]|) + names[0]) + NameBytes(names[1..])
  }

  function IndexBytes(names: seq<Name>): seq<byte>
    requires Writable(names)
  {
    Encode(4, |names|) + NameBytes(names)
  }

  function BlockBytes(blocks: seq<seq<Name>>): seq<byte>
    requires forall b :: b in blocks ==> Writable(b)
  {
    if blocks == [] then [] else IndexBytes(blocks[0]) + BlockBytes(blocks[1..])
  }

  /** A length-prefixed string; a negative length or a short stream is an error. */
  function ReadName(r: seq<byte>): (res: Option<(Name, seq<byte>)>) {
    var head := ReadInt(4, r);
    if head.None? then None
    else
      var (n, rest) := head.value;
      if n < 0 || n > |rest| then None else Some((rest[..n], rest[n..]))
  }

  /** Reads n names and adds each to `names`, as the reader does. */
  function ReadNames(r: seq<byte>, n: nat, names: seq<Name>): Option<(seq<Name>, seq<byte>)> {
    if n == 0 then Some((names, r))
    else
      var one := ReadName(r);
      if one.None? then None else ReadNames(one.value.1, n - 1, WithName(names, one.value.0))
  }

  function ReadIndex(r: seq<byte>): Option<(seq<Name>, seq<byte>)> {
    var head := ReadInt(4, r);
    if head.None? || head.value.0 < 0 then None else ReadNames(head.value.1, head.value.0, [])
  }

  function ReadBlocks(r: seq<byte>, n: nat): Option<(seq<seq<Name>>, seq<byte>)>
    decreases n
  {
    if n == 0 then Some(([], r))
    else
      var one := ReadIndex(r);
      if one.None? then None
      else
        var more := ReadBlocks(one.value.1, n - 1);
        if more.None? then None else Some(([one.value.0] + more.value.0, more.value.1))
  }

  lemma {:induction false} AddAllDistinct(names: seq<Name>, more: seq<Name>)
    requires Distinct(names)
    ensures Distinct(AddAll(names, more))
    ensures |AddAll(names, more)| <= |names| + |more|
    ensures AddAll(names, more) == names + more <==> Distinct(names + more)
    ensures !Distinct(names + more) ==> |AddAll(names, more)| < |names| + |more|
    decreases |more|
  {
    if more == [] {
      assert names + more == names;
    } else {
      AddAllDistinct(WithName(names, more[0]), more[1..]);
      if more[0] in names {
        var i :| 0 <= i < |names| && names[i] == more[0];
        assert (names + more)[i] == (names + more)[|names|];
      } else {
        assert (names + [more[0]]) + more[1..] == names + more;
      }
    }
  }

  lemma ReadWrittenName(name: Name, rest: seq<byte>)
    requires Fits(4, |name|)
    ensures ReadName((Encode(4, |name|) + name) + rest) == Some((name, rest))
  {
    ConcatAssoc(Encode(4, |name|), name, rest);
    ReadWrittenInt(4, |name|, name + rest);
    assert (name + rest)[..|name|] == name && (name + rest)[|name|..] == rest;
  }

  lemma {:induction false} ReadWrittenNames(written: seq<Name>, names: seq<Name>, rest: seq<byte>)
    requires forall n :: n in written ==> Fits(4, |n|)
    ensures ReadNames(NameBytes(written) + rest, |written|, names) == Some((AddAll(names, written), rest))
    decreases |written|
  {
    if written == [] {
      assert NameBytes(written) + rest == rest;
    } else {
      var after := NameBytes(written[1..]) + rest;
      ConcatAssoc(Encode(4, |written[0]|) + written[0], NameBytes(written[1..]), rest);
      assert written[0] in written;
      ReadWrittenName(written[0], after);
      ReadWrittenNames(written[1..], WithName(names, written[0]), rest);
    }
  }

  /**
   A written name list followed by any bytes is read back by re-adding, leaving those bytes; it is
   read back unchanged if and only if its names are distinct.
   */
  lemma IndexRoundTrip(names: seq<Name>, rest: seq<byte>)
    requires Writable(names)
    ensures ReadIndex(IndexBytes(names) + rest) == Some((AddAll([], names), rest))
    ensures ReadIndex(IndexBytes(names) + rest) == Some((names, rest)) <==> Distinct(names)
  {
    ConcatAssoc(Encode(4, |names|), NameBytes(names), rest);
    ReadWrittenInt(4, |names|, NameBytes(names) + rest);
    ReadWrittenNames(names, [], rest);
    AddAllDistinct([], names);
    assert [] + names == names;
  }

  lemma {:induction false} BlocksRoundTrip(blocks: seq<seq<Name>>, rest: seq<byte>)
    requires AllDistinct(blocks) && forall b :: b in blocks ==> Writable(b)
    ensures ReadBlocks(BlockBytes(blocks) + rest, |blocks|) == Some((blocks, rest))
  {
    if blocks == [] {
      assert BlockBytes(blocks) + rest == rest;
    } else {
      assert blocks[0] in blocks && blocks == [blocks[0]] + blocks[1..];
      assert forall k :: 0 <= k < |blocks[1..]| ==> blocks[1..][k] == blocks[k + 1];
      ConcatAssoc(IndexBytes(blocks[0]), BlockBytes(blocks[1..]), rest);
      IndexRoundTrip(blocks[0], BlockBytes(blocks[1..]) + rest);
      assert Distinct(blocks[0]);
      BlocksRoundTrip(blocks[1..], rest);
    }
  }

  lemma BytesOfFive(a: seq<Name>, b: seq<Name>, c: seq<Name>, d: seq<Name>, e: seq<Name>)
    requires forall x :: x in [a, b, c, d, e] ==> Writable(x)
    ensures Writable(a) && Writable(b) && Writable(c) && Writable(d) && Writable(e)
    ensures BlockBytes([a, b, c, d, e])
            == IndexBytes(a) + (IndexBytes(b) + (IndexBytes(c) + (IndexBytes(d) + IndexBytes(e))))
  {
    assert a in [a, b, c, d, e] && b in [a, b, c, d, e] && c in [a, b, c, d, e] && d in [a, b, c, d, e] && e in [a, b, c, d, e];
    assert [a, b, c, d, e][1..] == [b, c, d, e] && [b, c, d, e][1..] == [c, d, e];
    assert [c, d, e][1..] == [d, e] && [d, e][1..] == [e] && [e][1..] == [];
    assert BlockBytes([e]) == IndexBytes(e) + [] == IndexBytes(e);
    assert BlockBytes([d, e]) == IndexBytes(d) + BlockBytes([e]);
    assert BlockBytes([c, d, e]) == IndexBytes(c) + BlockBytes([d, e]);
    assert BlockBytes([b, c, d, e]) == IndexBytes(b) + BlockBytes([c, d, e]);
  }

  /** The layout of a name list: its length, then name by name the length and the bytes, in order. */
  lemma {:induction false} NamesLayout(names: seq<Name>, i: nat)
    requires i < |names| && Writable(names)
    ensures Writable(names[..i])
    ensures |NameBytes(names[..i])| + 4 + |names[i]| <= |NameBytes(names)|
    ensures NameBytes(names)[|NameBytes(names[..i])|..][..4 + |names[i]|] == Encode(4, |names[i]|) + names[i]
    ensures IndexBytes(names)[..4] == Encode(4, |names|) && IndexBytes(names)[4..] == NameBytes(names)
  {
    assert names[i] in names && forall n :: n in names[..i] ==> n in names;
    assert forall n :: n in names[i..] ==> n in names;
    NameBytesConcat(names[..i], names[i..]);
    assert names == names[..i] + names[i..];
    assert names[i..][1..] == names[i + 1..];
    assert NameBytes(names[i..]) == (Encode(4, |names[i]|) + names[i]) + NameBytes(names[i + 1..]);
  }

  lemma {:induction false} NameBytesConcat(a: seq<Name>, b: seq<Name>)
    requires forall n :: n in a || n in b ==> Fits(4, |n|)
    ensures NameBytes(a + b) == NameBytes(a) + NameBytes(b)
  {
    if a == [] {
      assert a + b == b;
    } else {
      assert (a + b)[1..] == a[1..] + b && a[0] in a;
      NameBytesConcat(a[1..], b);
      ConcatAssoc(Encode(4, |a[0]|) + a[0], NameBytes(a[1..]), NameBytes(b));
    }
  }

  /** Names that can be read were written. */
  lemma {:induction false} WrittenNames(r: seq<byte>, n: nat, names: seq<Name>) returns (written: seq<Name>)
    requires ReadNames(r, n, names).Some?
    ensures |written| == n && forall x :: x in written ==> Fits(4, |x|)
    ensures ReadNames(r, n, names).value.0 == AddAll(names, written) && r == NameBytes(written) + ReadNames(r, n, names).value.1
    decreases n
  {
    if n == 0 {
      written := [];
      assert r == NameBytes([]) + r;
    } else {
      var (name, rest) := ReadName(r).value;
      ReadIsWritten(4, r);
      assert ReadInt(4, r).value.1 == name + rest;
      ConcatAssoc(Encode(4, |name|), name, rest);
      var more := WrittenNames(rest, n - 1, WithName(names, name));
      written := [name] + more;
      assert written[1..] == more;
      ConcatAssoc(Encode(4, |name|) + name, NameBytes(more), ReadNames(r, n, names).value.1);
    }
  }

  /** Exactly which bytes are read as an index: those of a written list, which is re-added name by name. */
  lemma ReadIndexExactly(r: seq<byte>, names: seq<Name>, rest: seq<byte>)
    ensures ReadIndex(r) == Some((names, rest))
            <==> exists written :: Writable(written) && r == IndexBytes(written) + rest && names == AddAll([], written)
  {
    if ReadIndex(r) == Some((names, rest)) {
      ReadIsWritten(4, r);
      var (n, body) := ReadInt(4, r).value;
      var written := WrittenNames(body, n, []);
      ConcatAssoc(Encode(4, n), NameBytes(written), rest);
      assert Writable(written) && r == IndexBytes(written) + rest;
    }
    forall written | Writable(written) && r == IndexBytes(written) + rest && names == AddAll([], written)
      ensures ReadIndex(r) == Some((names, rest))
    {
      IndexRoundTrip(written, rest);
    }
  }

  // ---------- the objects ----------

  /** Writes one index. */
  method MarshalIndex(index: Index<Name>) returns (w: seq<byte>)
    requires index.Valid() && Writable(index.names)
    ensures w == IndexBytes(index.names)
  {
    w := Encode(4, |index.names|);
    for i := 0 to |index.names|
      invariant w + NameBytes(index.names[i..]) == IndexBytes(index.names)
    {
      assert index.names[i] in index.names;
      assert index.names[i..][1..] == index.names[i + 1..];
      ConcatAssoc(w, Encode(4, |index.names[i]|) + index.names[i], NameBytes(index.names[i + 1..]));
      w := w + (Encode(4, |index.names[i]|) + index.names[i]);
    }
    assert w + [] == w;
  }

  /** Reads one index by adding the names it finds. */
  method UnmarshalIndex(r: seq<byte>) returns (ok: bool, index: Index<Name>, rest: seq<byte>)
    ensures fresh(index) && index.Valid()
    ensures ok <==> ReadIndex(r).Some?
    ensures ok ==> ReadIndex(r) == Some((index.names, rest))
  {
    index := new Index<Name>();
    rest := r;
    var head := ReadInt(4, r);
    if head.None? || head.value.0 < 0 {
      return false, index, rest;
    }
    var n: nat := head.value.0;
    rest := head.value.1;
    for i := 0 to n
      invariant fresh(index) && index.Valid()
      invariant ReadNames(rest, n - i, index.names) == ReadIndex(r)
    {
      var one := ReadName(rest);
      if one.None? {
        return false, index, rest;
      }
      index.Add(one.value.0);
      rest := one.value.1;
    }
    ok := true;
  }

  /** The five indices of factorisation machines, numbered one after the other. */
  class UnifiedMapIndex {
    var users: Index<Name>
    var items: Index<Name>
    var userLabels: Index<Name>
    var itemLabels: Index<Name>
    var ctxLabels: Index<Name>

    ghost predicate Valid()
      reads this, users, items, userLabels, itemLabels, ctxLabels
    {
      users.Valid() && items.Valid() && userLabels.Valid() && itemLabels.Valid() && ctxLabels.Valid()
    }

    function Blocks(): seq<seq<Name>>
      reads this, users, items, userLabels, itemLabels, ctxLabels
    {
      [users.names, items.names, userLabels.names, itemLabels.names, ctxLabels.names]
    }

    constructor (users: Index<Name>, items: Index<Name>, userLabels: Index<Name>, itemLabels: Index<Name>, ctxLabels: Index<Name>)
      ensures this.users == users && this.items == items && this.userLabels == userLabels
      ensures this.itemLabels == itemLabels && this.ctxLabels == ctxLabels
    {
      this.users, this.items, this.userLabels, this.itemLabels, this.ctxLabels := users, items, userLabels, itemLabels, ctxLabels;
    }

    function Len(): (n: nat)
      reads this, users, items, userLabels, itemLabels, ctxLabels
      ensures n == Total(Blocks())
    {
      TotalOfFive(users.names, items.names, userLabels.names, itemLabels.names, ctxLabels.names);
      |users.names| + |items.names| + |userLabels.names| + |itemLabels.names| + |ctxLabels.names|
    }

    function EncodeUser(name: Name): (y: int)
      requires Valid()
      reads this, users, items, userLabels, itemLabels, ctxLabels
      ensures y == Number(Blocks(), 0, name)
      ensures NumberedFrom(users.names, 0, name, y)
    {
      TotalOfFive(users.names, items.names, userLabels.names, itemLabels.names, ctxLabels.names);
      users.ToNumber(name)
    }

    function EncodeItem(name: Name): (y: int)
      requires Valid()
      reads this, users, items, userLabels, itemLabels, ctxLabels
      ensures y == Number(Blocks(), 1, name)
      ensures NumberedFrom(items.names, |users.names|, name, y)
    {
      TotalOfFive(users.names, items.names, userLabels.names, itemLabels.names, ctxLabels.names);
      var y := items.ToNumber(name);
      if y != NOT_ID then y + |users.names| else y
    }

    function EncodeUserLabel(name: Name): (y: int)
      requires Valid()
      reads this, users, items, userLabels, itemLabels, ctxLabels
      ensures y == Number(Blocks(), 2, name)
      ensures NumberedFrom(userLabels.names, |users.names| + |items.names|, name, y)
    {
      TotalOfFive(users.names, items.names, userLabels.names, itemLabels.names, ctxLabels.names);
      var y := userLabels.ToNumber(name);
      if y != NOT_ID then y + |users.names| + |items.names| else y
    }

    function EncodeItemLabel(name: Name): (y: int)
      requires Valid()
      reads this, users, items, userLabels, itemLabels, ctxLabels
      ensures y == Number(Blocks(), 3, name)
      ensures NumberedFrom(itemLabels.names, |users.names| + |items.names| + |userLabels.names|, name, y)
    {
      TotalOfFive(users.names, items.names, userLabels.names, itemLabels.names, ctxLabels.names);
      var y := itemLabels.ToNumber(name);
      if y != NOT_ID then y + |users.names| + |items.names| + |userLabels.names| else y
    }

    function EncodeContextLabel(name: Name): (y: int)
      requires Valid()
      reads this, users, items, userLabels, itemLabels, ctxLabels
      ensures y == Number(Blocks(), 4, name)
      ensures NumberedFrom(ctxLabels.names, |users.names| + |items.names| + |userLabels.names| + |itemLabels.names|, name, y)
    {
      TotalOfFive(users.names, items.names, userLabels.names, itemLabels.names, ctxLabels.names);
      var y := ctxLabels.ToNumber(name);
      if y != NOT_ID then y + |users.names| + |items.names| + |userLabels.names| + |itemLabels.names| else y
    }

    method Marshal() returns (w: seq<byte>)
      requires Valid() && forall b :: b in Blocks() ==> Writable(b)
      ensures w == BlockBytes(Blocks())
      ensures Writable(users.names) && Writable(items.names)
              && Writable(userLabels.names) && Writable(itemLabels.names) && Writable(ctxLabels.names)
      ensures w == IndexBytes(users.names) + (IndexBytes(items.names) + (IndexBytes(userLabels.names)
                   + (IndexBytes(itemLabels.names) + IndexBytes(ctxLabels.names))))
    {
      BytesOfFive(users.names, items.names, userLabels.names, itemLabels.names, ctxLabels.names);
      w := MarshalBlocks();
    }

    method MarshalBlocks() returns (w: seq<byte>)
      requires Valid() && forall b :: b in Blocks() ==> Writable(b)
      ensures w == BlockBytes(Blocks())
    {
      var indices := [users, items, userLabels, itemLabels, ctxLabels];
      w := [];
      assert Blocks()[0..] == Blocks();
      for i := 0 to |indices|
        invariant w + BlockBytes(Blocks()[i..]) == BlockBytes(Blocks())
      {
        assert Blocks()[i] in Blocks() && indices[i].names == Blocks()[i];
        assert Blocks()[i..][1..] == Blocks()[i + 1..];
        var one := MarshalIndex(indices[i]);
        ConcatAssoc(w, one, BlockBytes(Blocks()[i + 1..]));
        w := w + one;
      }
      assert Blocks()[5..] == [] && w + [] == w;
    }
  }

  lemma TotalOfFive(a: seq<Name>, b: seq<Name>, c: seq<Name>, d: seq<Name>, e: seq<Name>)
    ensures var s := [a, b, c, d, e];
            && Total(s[..0]) == 0 && Total(s[..1]) == |a| && Total(s[..2]) == |a| + |b|
            && Total(s[..3]) == |a| + |b| + |c| && Total(s[..4]) == |a| + |b| + |c| + |d|
            && Total(s) == |a| + |b| + |c| + |d| + |e|
  {
    var s := [a, b, c, d, e];
    BlockEnds(s, 0, 5);
    BlockEnds(s, 1, 5);
    BlockEnds(s, 2, 5);
    BlockEnds(s, 3, 5);
    BlockEnds(s, 4, 5);
    assert s[..5] == s;
  }

  const MAP_INDEX: byte := 0
  const DIRECT_INDEX: byte := 1
  const NIL_INDEX: byte := 2

  /** An index of either kind, or none; a direct index takes numbers literally and holds their bound. */
  datatype UnifiedIndex = NoIndex | MapIndex(index: UnifiedMapIndex) | DirectIndex(n: int)

  method MarshalUnifiedIndex(unified: UnifiedIndex) returns (w: seq<byte>)
    requires unified.MapIndex? ==> unified.index.Valid() && forall b :: b in unified.index.Blocks() ==> Writable(b)
    requires unified.DirectIndex? ==> Fits(4, unified.n)
    ensures unified.NoIndex? ==> w == [2]
    ensures unified.MapIndex? ==> w == [0] + BlockBytes(unified.index.Blocks())
    ensures unified.DirectIndex? ==> w == [1] + Encode(4, unified.n)
  {
    match unified {
      case NoIndex =>
        w := [NIL_INDEX];
      case MapIndex(index) =>
        var body := index.Marshal();
        w := [MAP_INDEX] + body;
      case DirectIndex(n) =>
        w := [DIRECT_INDEX] + Encode(4, n);
    }
  }

  /** What a byte stream encodes. */
  datatype Encoded = Malformed | Nil(rest: seq<byte>) | Map(blocks: seq<seq<Name>>, rest: seq<byte>) | Direct(n: int, rest: seq<byte>)

  function ReadUnified(r: seq<byte>): Encoded {
    if r == [] then Malformed
    else if r[0] == MAP_INDEX then
      var five := ReadBlocks(r[1..], BLOCK_COUNT);
      if five.None? then Malformed else Map(five.value.0, five.value.1)
    else if r[0] == DIRECT_INDEX then
      var n := ReadInt(4, r[1..]);
      if n.None? then Malformed else Direct(n.value.0, n.value.1)
    else if r[0] == NIL_INDEX then Nil(r[1..])
    else Malformed
  }

  method UnmarshalUnifiedIndex(r: seq<byte>) returns (ok: bool, unified: UnifiedIndex, rest: seq<byte>)
    ensures ok <==> !ReadUnified(r).Malformed?
    ensures ok && unified.NoIndex? ==> ReadUnified(r) == Nil(rest)
    ensures ok && unified.MapIndex? ==>
      fresh(unified.index) && unified.index.Valid() && ReadUnified(r) == Map(unified.index.Blocks(), rest)
    ensures ok && unified.DirectIndex? ==> ReadUnified(r) == Direct(unified.n, rest)
  {
    unified, rest := NoIndex, r;
    if |r| == 0 {
      return false, unified, rest;
    }
    if r[0] == NIL_INDEX {
      return true, NoIndex, r[1..];
    } else if r[0] == DIRECT_INDEX {
      var n := ReadInt(4, r[1..]);
      if n.None? {
        return false, unified, rest;
      }
      return true, DirectIndex(n.value.0), n.value.1;
    } else if r[0] != MAP_INDEX {
      return false, unified, rest;
    }
    var read: seq<Index<Name>>;
    ok, read, rest := UnmarshalBlocks(r[1..], BLOCK_COUNT);
    if ok {
      var index := new UnifiedMapIndex(read[0], read[1], read[2], read[3], read[4]);
      assert index.Blocks() == NamesOf(read);
      unified := MapIndex(index);
    }
  }

  ghost function NamesOf(read: seq<Index<Name>>): (names: seq<seq<Name>>)
    reads set x | x in read
    ensures |names| == |read| && forall k :: 0 <= k < |read| ==> names[k] == read[k].names
  {
    seq(|read|, k requires 0 <= k < |read| reads set x | x in read => read[k].names)
  }

  /** Reads the next of the n indices that are left. */
  method UnmarshalNext(r: seq<byte>, n: nat, ghost names: seq<seq<Name>>) returns (ok: bool, one: Index<Name>, rest: seq<byte>)
    requires n > 0
    ensures fresh(one) && one.Valid()
    ensures !ok ==> Prepend(names, ReadBlocks(r, n)) == None
    ensures ok ==> Prepend(names, ReadBlocks(r, n)) == Prepend(names + [one.names], ReadBlocks(rest, n - 1))
  {
    ok, one, rest := UnmarshalIndex(r);
    if ok {
      var more := ReadBlocks(ReadIndex(r).value.1, n - 1);
      if more.Some? {
        ConcatAssoc(names, [ReadIndex(r).value.0], more.value.0);
      }
    }
  }

  /** Reads n indices, five for a unified index. */
  method UnmarshalBlocks(r: seq<byte>, n: nat) returns (ok: bool, read: seq<Index<Name>>, rest: seq<byte>)
    ensures ok <==> ReadBlocks(r, n).Some?
    ensures ok ==> |read| == n && (forall k :: 0 <= k < |read| ==> fresh(read[k]) && read[k].Valid())
    ensures ok ==> ReadBlocks(r, n) == Some((NamesOf(read), rest))
  {
    read, rest := [], r;
    ghost var names: seq<seq<Name>> := [];
    assert ReadBlocks(r, n).Some? ==> [] + ReadBlocks(r, n).value.0 == ReadBlocks(r, n).value.0;
    for i := 0 to n
      invariant |read| == |names| == i
      invariant forall k :: 0 <= k < i ==> fresh(read[k]) && read[k].Valid() && read[k].names == names[k]
      invariant ReadBlocks(r, n) == Prepend(names, ReadBlocks(rest, n - i))
    {
      var good, one, next := UnmarshalNext(rest, n - i, names);
      if !good {
        return false, [], rest;
      }
      read := read + [one];
      names := names + [one.names];
      rest := next;
    }
    assert names + [] == names && names == NamesOf(read);
    ok := true;
  }

  function Prepend(names: seq<seq<Name>>, more: Option<(seq<seq<Name>>, seq<byte>)>): Option<(seq<seq<Name>>, seq<byte>)> {
    if more.None? then None else Some((names + more.value.0, more.value.1))
  }

  lemma TypeByte(t: byte, body: seq<byte>, rest: seq<byte>)
    ensures (([t] + body) + rest)[0] == t && (([t] + body) + rest)[1..] == body + rest
  {
  }

  /** The written form of any index, followed by any bytes, decodes to the same content and leaves those bytes. */
  lemma UnifiedRoundTrip(blocks: seq<seq<Name>>, n: int, rest: seq<byte>)
    requires |blocks| == BLOCK_COUNT && AllDistinct(blocks) && (forall b :: b in blocks ==> Writable(b)) && Fits(4, n)
    ensures ReadUnified(([MAP_INDEX] + BlockBytes(blocks)) + rest) == Map(blocks, rest)
    ensures ReadUnified(([DIRECT_INDEX] + Encode(4, n)) + rest) == Direct(n, rest)
    ensures ReadUnified([NIL_INDEX] + rest) == Nil(rest)
  {
    BlocksRoundTrip(blocks, rest);
    TypeByte(MAP_INDEX, BlockBytes(blocks), rest);
    ReadWrittenInt(4, n, rest);
    TypeByte(DIRECT_INDEX, Encode(4, n), rest);
    TypeByte(NIL_INDEX, [], rest);
    assert [NIL_INDEX] + [] == [NIL_INDEX] && [] + rest == rest;
  }

  /** Each list is what is left of a written one when its names are added one by one. */
  ghost predicate Rebuilt(written: seq<seq<Name>>, blocks: seq<seq<Name>>) {
    |written| == |blocks| && forall k :: 0 <= k < |blocks| ==> blocks[k] == AddAll([], written[k])
  }

  ghost predicate AllWritable(blocks: seq<seq<Name>>) {
    forall b :: b in blocks ==> Writable(b)
  }

  lemma {:induction false} WrittenBlocks(r: seq<byte>, n: nat) returns (written: seq<seq<Name>>)
    requires ReadBlocks(r, n).Some?
    ensures AllWritable(written) && |written| == n
    ensures Rebuilt(written, ReadBlocks(r, n).value.0) && r == BlockBytes(written) + ReadBlocks(r, n).value.1
    decreases n
  {
    if n == 0 {
      written := [];
      assert r == BlockBytes([]) + r;
    } else {
      var (names, rest) := ReadIndex(r).value;
      ReadIndexExactly(r, names, rest);
      var one :| Writable(one) && r == IndexBytes(one) + rest && names == AddAll([], one);
      var more := WrittenBlocks(rest, n - 1);
      written := [one] + more;
      assert written[1..] == more;
      ConcatAssoc(IndexBytes(one), BlockBytes(more), ReadBlocks(r, n).value.1);
    }
  }

  /** Exactly which bytes are read as no index and as a direct one, and that a map index comes from five written lists. */
  lemma ReadUnifiedExactly(r: seq<byte>, n: int, rest: seq<byte>)
    ensures ReadUnified(r) == Nil(rest) <==> r == [2] + rest
    ensures ReadUnified(r) == Direct(n, rest) <==> Fits(4, n) && r == [1] + (Encode(4, n) + rest)
    ensures ReadUnified(r).Map? ==>
      exists written :: |written| == 5 && AllWritable(written) && Rebuilt(written, ReadUnified(r).blocks)
                        && r == [0] + (BlockBytes(written) + ReadUnified(r).rest)
  {
    assert r != [] ==> r == [r[0]] + r[1..];
    assert ([2] + rest)[1..] == rest;
    if |r| >= 5 {
      ReadIsWritten(4, r[1..]);
    }
    if Fits(4, n) && r == [1] + (Encode(4, n) + rest) {
      assert r[1..] == Encode(4, n) + rest;
      ReadWrittenInt(4, n, rest);
    }
    if ReadUnified(r).Map? {
      var written := WrittenBlocks(r[1..], 5);
    }
  }

  /** Marshal, then unmarshal: the rebuilt index has the same names, so it gives every name the same number. */
  method MarshalThenUnmarshal(index: UnifiedMapIndex, trailing: seq<byte>)
    returns (ok: bool, rebuilt: UnifiedMapIndex, rest: seq<byte>)
    requires index.Valid() && forall b :: b in index.Blocks() ==> Writable(b)
    ensures ok && rebuilt.Valid() && rebuilt.Blocks() == index.Blocks() && rest == trailing
    ensures rebuilt.Len() == index.Len()
    ensures forall n :: rebuilt.EncodeUser(n) == index.EncodeUser(n) && rebuilt.EncodeItem(n) == index.EncodeItem(n)
    ensures forall n :: rebuilt.EncodeUserLabel(n) == index.EncodeUserLabel(n) && rebuilt.EncodeItemLabel(n) == index.EncodeItemLabel(n)
    ensures forall n :: rebuilt.EncodeContextLabel(n) == index.EncodeContextLabel(n)
  {
    var w := MarshalUnifiedIndex(MapIndex(index));
    UnifiedRoundTrip(index.Blocks(), 0, trailing);
    var unified;
    ok, unified, rest := UnmarshalUnifiedIndex(w + trailing);
    rebuilt := unified.index;
  }
}
