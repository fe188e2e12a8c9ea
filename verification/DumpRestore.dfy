/**
 The backup format of the master node: length-prefixed records, negative numbers that open a
 section and a zero that ends the stream. `Dump` prints it, `Restore` parses it and inserts the
 records in batches. Record encodings (protobuf, with JSON labels inside) are parameters.
 */
module DumpRestore {
  import opened Seqs
  import opened Bytes

  const EOF := 0
  const USER_STREAM := -1
  const ITEM_STREAM := -2
  const FEEDBACK_STREAM := -3
  const BATCH_SIZE: nat := 10000

  /** How one kind of record becomes bytes and back; `unmarshal` may refuse. */
  datatype Codec<!T> = Codec(marshal: T -> seq<byte>, unmarshal: seq<byte> -> Option<T>)

  datatype Codecs<!U, !I, !F> = Codecs(user: Codec<U>, item: Codec<I>, feedback: Codec<F>)

  /** The encoder and the decoder agree on these records, and their sizes fit the length field. */
  ghost predicate Faithful<T>(c: Codec<T>, xs: seq<T>) {
    forall x :: x in xs ==> c.unmarshal(c.marshal(x)) == Some(x) && Fits(8, |c.marshal(x)|)
  }

  ghost predicate NoEmptyRecord<T>(c: Codec<T>, xs: seq<T>) {
    forall x :: x in xs ==> c.marshal(x) != []
  }

  // ---------- the printer ----------

  function WriteDump<T>(c: Codec<T>, x: T): seq<byte>
    requires Fits(8, |c.marshal(x)|)
  {
    Encode(8, |c.marshal(x)|) + c.marshal(x)
  }

  ghost function WriteAll<T>(c: Codec<T>, xs: seq<T>): seq<byte>
    requires Faithful(c, xs)
  {
    if xs == [] then [] else WriteDump(c, xs[0]) + WriteAll(c, xs[1..])
  }

  /** The bytes of a complete dump, before the JSON statistics that the handler sends after it. */
  ghost function DumpBytes<U, I, F>(cs: Codecs<U, I, F>, users: seq<U>, items: seq<I>, feedback: seq<F>): seq<byte>
    requires Faithful(cs.user, users) && Faithful(cs.item, items) && Faithful(cs.feedback, feedback)
  {
    Encode(8, USER_STREAM) + (WriteAll(cs.user, users)
    + (Encode(8, ITEM_STREAM) + (WriteAll(cs.item, items)
    + (Encode(8, FEEDBACK_STREAM) + (WriteAll(cs.feedback, feedback) + Encode(8, EOF))))))
  }

  lemma {:induction false} WriteAllConcat<T>(c: Codec<T>, xs: seq<T>, ys: seq<T>)
    requires Faithful(c, xs) && Faithful(c, ys)
    ensures Faithful(c, xs + ys) && WriteAll(c, xs + ys) == WriteAll(c, xs) + WriteAll(c, ys)
  {
    if xs == [] {
      assert xs + ys == ys;
    } else {
      assert (xs + ys)[1..] == xs[1..] + ys;
      WriteAllConcat(c, xs[1..], ys);
      ConcatAssoc(WriteDump(c, xs[0]), WriteAll(c, xs[1..]), WriteAll(c, ys));
    }
  }

  lemma WriteAllSnoc<T>(c: Codec<T>, xs: seq<T>, x: T)
    requires Faithful(c, xs + [x])
    ensures Faithful(c, xs) && Faithful(c, [x])
    ensures WriteAll(c, xs + [x]) == WriteAll(c, xs) + WriteDump(c, x)
  {
    assert forall y :: y in xs ==> y in xs + [x];
    assert x in xs + [x];
    WriteAllConcat(c, xs, [x]);
    assert [x][1..] == [] && WriteDump(c, x) + [] == WriteDump(c, x);
  }

  /** One section of a dump: a stream of batches written record by record, and their number. */
  method DumpSection<T>(c: Codec<T>, flag: int, batches: seq<seq<T>>) returns (w: seq<byte>, count: nat)
    requires Fits(8, flag)
    requires Faithful(c, Flatten(batches))
    ensures w == Encode(8, flag) + WriteAll(c, Flatten(batches))
    ensures count == |Flatten(batches)|
  {
    w, count := Encode(8, flag), 0;
    ghost var done: seq<T> := [];
    for i := 0 to |batches|
      invariant done == Flatten(batches[..i]) && count == |done|
      invariant Faithful(c, done)
      invariant w == Encode(8, flag) + WriteAll(c, done)
    {
      BatchAt(batches, i);
      var more := DumpBatch(c, batches[i]);
      WriteAllConcat(c, done, batches[i]);
      ConcatAssoc(Encode(8, flag), WriteAll(c, done), more);
      w, count := w + more, count + |batches[i]|;
      done := done + batches[i];
    }
    assert batches[..|batches|] == batches;
  }

  lemma {:induction false} BatchAt<T>(batches: seq<seq<T>>, i: nat)
    requires i < |batches|
    ensures Flatten(batches[..i + 1]) == Flatten(batches[..i]) + batches[i]
    ensures forall x :: x in Flatten(batches[..i]) + batches[i] ==> x in Flatten(batches)
  {
    assert batches == batches[..i + 1] + batches[i + 1..];
    FlattenConcat(batches[..i + 1], batches[i + 1..]);
    assert batches[..i + 1] == batches[..i] + [batches[i]];
    FlattenConcat(batches[..i], [batches[i]]);
    assert Flatten([batches[i]]) == batches[i];
  }

  /** The records of one batch. */
  method DumpBatch<T>(c: Codec<T>, batch: seq<T>) returns (w: seq<byte>)
    requires Faithful(c, batch)
    ensures w == WriteAll(c, batch)
  {
    w := [];
    assert batch[..0] == [];
    for j := 0 to |batch|
      invariant Faithful(c, batch[..j]) && w == WriteAll(c, batch[..j])
    {
      assert batch[..j + 1] == batch[..j] + [batch[j]];
      assert batch[j] in batch && forall y :: y in batch[..j + 1] ==> y in batch;
      WriteAllSnoc(c, batch[..j], batch[j]);
      w := w + WriteDump(c, batch[j]);
    }
    assert batch[..|batch|] == batch;
  }

  datatype Stats = Stats(users: nat, items: nat, feedback: nat)

  /** The dump handler: three sections and the end mark. */
  method Dump<U, I, F>(cs: Codecs<U, I, F>, users: seq<seq<U>>, items: seq<seq<I>>, feedback: seq<seq<F>>)
    returns (w: seq<byte>, stats: Stats)
    requires Faithful(cs.user, Flatten(users)) && Faithful(cs.item, Flatten(items)) && Faithful(cs.feedback, Flatten(feedback))
    ensures w == DumpBytes(cs, Flatten(users), Flatten(items), Flatten(feedback))
    ensures stats == Stats(|Flatten(users)|, |Flatten(items)|, |Flatten(feedback)|)
  {
    var wu, nu := DumpSection(cs.user, USER_STREAM, users);
    var wi, ni := DumpSection(cs.item, ITEM_STREAM, items);
    var wf, nf := DumpSection(cs.feedback, FEEDBACK_STREAM, feedback);
    w := wu + (wi + (wf + Encode(8, EOF)));
    ConcatAssoc(Encode(8, FEEDBACK_STREAM), WriteAll(cs.feedback, Flatten(feedback)), Encode(8, EOF));
    ConcatAssoc(Encode(8, ITEM_STREAM), WriteAll(cs.item, Flatten(items)), wf + Encode(8, EOF));
    ConcatAssoc(Encode(8, USER_STREAM), WriteAll(cs.user, Flatten(users)), wi + (wf + Encode(8, EOF)));
    stats := Stats(nu, ni, nf);
  }

  // ---------- what a byte stream means ----------

  /** One length-prefixed frame: a record, a number that is not a size, or unreadable bytes. */
  datatype Frame<+T> = Unreadable | Flag(flag: int, rest: seq<byte>) | Record(value: T, rest: seq<byte>)

  function ReadDump<T>(c: Codec<T>, r: seq<byte>): (f: Frame<T>)
    ensures f.Flag? ==> f.flag <= 0 && |f.rest| < |r|
    ensures f.Record? ==> |f.rest| < |r|
  {
    var head := ReadInt(8, r);
    if head.None? then Unreadable
    else
      var (size, rest) := head.value;
      if size <= 0 then Flag(size, rest)
      else if |rest| < size then Unreadable
      else
        var x := c.unmarshal(rest[..size]);
        if x.None? then Unreadable else Record(x.value, rest[size..])
  }

  /** The records up to the next flag; `end` is missing when the section breaks off. */
  datatype Section<+T> = Section(records: seq<T>, end: Option<(int, seq<byte>)>)

  function ReadSection<T>(c: Codec<T>, r: seq<byte>): (s: Section<T>)
    ensures s.end.Some? ==> s.end.value.0 <= 0 && |s.end.value.1| < |r|
    decreases |r|
  {
    match ReadDump(c, r)
    case Unreadable => Section([], None)
    case Flag(flag, rest) => Section([], Some((flag, rest)))
    case Record(x, rest) =>
      var tail := ReadSection(c, rest);
      Section([x] + tail.records, tail.end)
  }

  /** Full batches, then the remainder if the section was complete. */
  function Batches<T>(xs: seq<T>, complete: bool): seq<seq<T>> {
    if |xs| >= BATCH_SIZE then [xs[..BATCH_SIZE]] + Batches(xs[BATCH_SIZE..], complete)
    else if xs == [] || !complete then []
    else [xs]
  }

  datatype Insert<+U, +I, +F> = InsertUsers(users: seq<U>) | InsertItems(items: seq<I>) | InsertFeedback(feedback: seq<F>)

  function WrapUsers<U, I, F>(batch: seq<U>): Insert<U, I, F> { InsertUsers(batch) }

  function WrapItems<U, I, F>(batch: seq<I>): Insert<U, I, F> { InsertItems(batch) }

  function WrapFeedback<U, I, F>(batch: seq<F>): Insert<U, I, F> { InsertFeedback(batch) }

  /** Everything a restore asks of the database, in order, and how the parse ended. */
  datatype Meaning<+U, +I, +F> =
    Meaning(inserts: seq<Insert<U, I, F>>, stats: Stats, complete: bool, rest: seq<byte>)

  function SectionInserts<T, U, I, F>(s: Section<T>, wrap: seq<T> -> Insert<U, I, F>): seq<Insert<U, I, F>> {
    Map(Batches(s.records, s.end.Some?), wrap)
  }

  const NOTHING := Stats(0, 0, 0)

  function MeaningFrom<U, I, F>(cs: Codecs<U, I, F>, flag: int, r: seq<byte>): Meaning<U, I, F>
    decreases |r|, 1
  {
    if flag == EOF then Meaning([], NOTHING, true, r)
    else if flag == USER_STREAM then
      var s := ReadSection(cs.user, r);
      var m := AfterSection(cs, s.end, r);
      m.(inserts := SectionInserts(s, WrapUsers) + m.inserts, stats := m.stats.(users := |s.records| + m.stats.users))
    else if flag == ITEM_STREAM then
      var s := ReadSection(cs.item, r);
      var m := AfterSection(cs, s.end, r);
      m.(inserts := SectionInserts(s, WrapItems) + m.inserts, stats := m.stats.(items := |s.records| + m.stats.items))
    else if flag == FEEDBACK_STREAM then
      var s := ReadSection(cs.feedback, r);
      var m := AfterSection(cs, s.end, r);
      m.(inserts := SectionInserts(s, WrapFeedback) + m.inserts, stats := m.stats.(feedback := |s.records| + m.stats.feedback))
    else Meaning([], NOTHING, false, r)
  }

  function AfterSection<U, I, F>(cs: Codecs<U, I, F>, end: Option<(int, seq<byte>)>, r: seq<byte>): Meaning<U, I, F>
    requires end.Some? ==> |end.value.1| < |r|
    decreases |r|, 0
  {
    if end.None? then Meaning([], NOTHING, false, []) else MeaningFrom(cs, end.value.0, end.value.1)
  }

  function MeaningOf<U, I, F>(cs: Codecs<U, I, F>, r: seq<byte>): Meaning<U, I, F> {
    var head := ReadInt(8, r);
    if head.None? then Meaning([], NOTHING, false, r) else MeaningFrom(cs, head.value.0, head.value.1)
  }

  // ---------- the parser with its database ----------

  /** The database seen by a restore: a log of batches, refusing one call (`failAt`) if that is set. */
  class DataClient<U, I, F> {
    var log: seq<Insert<U, I, F>>
    const failAt: Option<nat>

    constructor (failAt: Option<nat>)
      ensures log == [] && this.failAt == failAt
    {
      log := [];
      this.failAt := failAt;
    }

    method BatchInsert(batch: Insert<U, I, F>) returns (ok: bool)
      modifies this
      ensures ok == (failAt != Some(|old(log)|))
      ensures log == if ok then old(log) + [batch] else old(log)
    {
      ok := failAt != Some(|log|);
      if ok {
        log := log + [batch];
      }
    }
  }

  /** The database takes `more` further batches, given that it has logged `n` before. */
  predicate Accepts(failAt: Option<nat>, n: nat, more: nat) {
    failAt.None? || failAt.value < n || n + more <= failAt.value
  }

  /** The batches that get through: all of them, or those before the refused call. */
  function Taken<T>(failAt: Option<nat>, n: nat, inserts: seq<T>): seq<T> {
    if Accepts(failAt, n, |inserts|) then inserts else inserts[..failAt.value - n]
  }

  /** The calls still to come when `buffer` is held and `rest` is unread. */
  ghost function Pending<T, U, I, F>(c: Codec<T>, buffer: seq<T>, rest: seq<byte>, complete: bool,
                                     wrap: seq<T> -> Insert<U, I, F>): seq<Insert<U, I, F>>
  {
    Map(Batches(buffer + ReadSection(c, rest).records, complete), wrap)
  }

  lemma PendingAtEnd<T, U, I, F>(c: Codec<T>, buffer: seq<T>, rest: seq<byte>, complete: bool,
                                 wrap: seq<T> -> Insert<U, I, F>)
    requires |buffer| < BATCH_SIZE && !ReadDump(c, rest).Record?
    ensures Pending(c, buffer, rest, complete, wrap) == if buffer == [] || !complete then [] else [wrap(buffer)]
  {
    assert buffer + ReadSection(c, rest).records == buffer;
  }

  lemma PendingAtRecord<T, U, I, F>(c: Codec<T>, buffer: seq<T>, rest: seq<byte>, complete: bool,
                                    wrap: seq<T> -> Insert<U, I, F>)
    requires |buffer| < BATCH_SIZE && ReadDump(c, rest).Record?
    ensures var f := ReadDump(c, rest);
            var grown := buffer + [f.value];
            && Pending(c, grown, f.rest, complete, wrap) == Pending(c, buffer, rest, complete, wrap)
            && (|grown| == BATCH_SIZE ==>
                  Pending(c, buffer, rest, complete, wrap) == [wrap(grown)] + Pending(c, [], f.rest, complete, wrap))
  {
    var f := ReadDump(c, rest);
    var grown := buffer + [f.value];
    var ahead := ReadSection(c, f.rest).records;
    assert buffer + ReadSection(c, rest).records == grown + ahead;
    if |grown| == BATCH_SIZE {
      assert (grown + ahead)[..BATCH_SIZE] == grown;
      assert (grown + ahead)[BATCH_SIZE..] == [] + ahead;
    }
  }

  /** The state between two calls: `log` is as far as the database is, `ahead` is what remains. */
  ghost predicate Progress<T>(failAt: Option<nat>, before: seq<T>, log: seq<T>, inserts: seq<T>, ahead: seq<T>) {
    |before| <= |log| && log + ahead == before + inserts && Accepts(failAt, |before|, |log| - |before|)
  }

  lemma CutBehind<T>(log: seq<T>, ahead: seq<T>, n: nat)
    requires |log| <= n <= |log + ahead|
    ensures (log + ahead)[..n] == log + ahead[..n - |log|]
  {
  }

  lemma ProgressMany<T>(failAt: Option<nat>, before: seq<T>, log: seq<T>, inserts: seq<T>, next: seq<T>, more: seq<T>)
    requires Progress(failAt, before, log, inserts, next + more)
    ensures Accepts(failAt, |log|, |next|) ==> Progress(failAt, before, log + next, inserts, more)
    ensures !Accepts(failAt, |log|, |next|) ==>
      !Accepts(failAt, |before|, |inserts|) && log + Taken(failAt, |log|, next) == before + Taken(failAt, |before|, inserts)
  {
    ConcatAssoc(log, next, more);
    assert |log + (next + more)| == |before + inserts|;
    if !Accepts(failAt, |log|, |next|) {
      CutBehind(log, next, failAt.value);
      CutBehind(log + next, more, |log + next|);
      CutBehind(before, inserts, failAt.value);
      assert (log + next)[..failAt.value] == ((log + next) + more)[..failAt.value];
    }
  }

  lemma ProgressStep<T>(failAt: Option<nat>, before: seq<T>, log: seq<T>, inserts: seq<T>, ahead: seq<T>)
    requires Progress(failAt, before, log, inserts, ahead) && ahead != []
    ensures failAt != Some(|log|) ==> Progress(failAt, before, log + [ahead[0]], inserts, ahead[1..])
    ensures failAt == Some(|log|) ==> !Accepts(failAt, |before|, |inserts|) && log == before + Taken(failAt, |before|, inserts)
  {
    assert ahead == [ahead[0]] + ahead[1..];
    ProgressMany(failAt, before, log, inserts, [ahead[0]], ahead[1..]);
    assert failAt == Some(|log|) ==> log + Taken(failAt, |log|, [ahead[0]]) == log;
  }

  lemma ProgressDone<T>(failAt: Option<nat>, before: seq<T>, log: seq<T>, inserts: seq<T>)
    requires Progress(failAt, before, log, inserts, [])
    ensures Accepts(failAt, |before|, |inserts|) && log == before + inserts
  {
    assert log + [] == log;
  }

  /**
   One section of a restore. The batches that reach the database are those of the section's
   meaning, in order, up to the first refused call.
   */
  method RestoreSection<T, U, I, F>(c: Codec<T>, r: seq<byte>, wrap: seq<T> -> Insert<U, I, F>, db: DataClient<U, I, F>)
    returns (ok: bool, flag: int, rest: seq<byte>, count: nat)
    modifies db
    ensures ok <==> ReadSection(c, r).end.Some?
                    && Accepts(db.failAt, |old(db.log)|, |SectionInserts(ReadSection(c, r), wrap)|)
    ensures db.log == old(db.log) + Taken(db.failAt, |old(db.log)|, SectionInserts(ReadSection(c, r), wrap))
    ensures ok ==> Some((flag, rest)) == ReadSection(c, r).end && count == |ReadSection(c, r).records|
  {
    ghost var complete := ReadSection(c, r).end.Some?;
    ghost var inserts := SectionInserts(ReadSection(c, r), wrap);
    var buffer: seq<T> := [];
    flag, rest, count := EOF, r, 0;
    assert [] + ReadSection(c, r).records == ReadSection(c, r).records;
    assert Progress(db.failAt, db.log, db.log, inserts, inserts);
    while true
      invariant |buffer| < BATCH_SIZE
      invariant ReadSection(c, r).end == ReadSection(c, rest).end
      invariant count + |ReadSection(c, rest).records| == |ReadSection(c, r).records|
      invariant Progress(db.failAt, old(db.log), db.log, inserts, Pending(c, buffer, rest, complete, wrap))
      decreases |rest|
    {
      ghost var pending := Pending(c, buffer, rest, complete, wrap);
      match ReadDump(c, rest) {
        case Unreadable =>
          PendingAtEnd(c, buffer, rest, complete, wrap);
          ProgressDone(db.failAt, old(db.log), db.log, inserts);
          ok := false;
          return;
        case Flag(f, next) =>
          PendingAtEnd(c, buffer, rest, complete, wrap);
          flag, rest, ok := f, next, true;
          if |buffer| > 0 {
            ProgressStep(db.failAt, old(db.log), db.log, inserts, pending);
            ok := db.BatchInsert(wrap(buffer));
          }
          if ok {
            ProgressDone(db.failAt, old(db.log), db.log, inserts);
          }
          return;
        case Record(x, next) =>
          PendingAtRecord(c, buffer, rest, complete, wrap);
          buffer, rest, count := buffer + [x], next, count + 1;
          if |buffer| == BATCH_SIZE {
            ProgressStep(db.failAt, old(db.log), db.log, inserts, pending);
            ok := db.BatchInsert(wrap(buffer));
            if !ok {
              return;
            }
            buffer := [];
          }
      }
    }
  }

  predicate AddUp(a: Stats, b: Stats, sum: Stats) {
    a.users + b.users == sum.users && a.items + b.items == sum.items && a.feedback + b.feedback == sum.feedback
  }

  /** The loop is on its way to the meaning `whole`: what is logged, what is counted and what lies ahead add up. */
  ghost predicate OnTheWay<U, I, F>(failAt: Option<nat>, before: seq<Insert<U, I, F>>, log: seq<Insert<U, I, F>>, stats: Stats,
                                    ahead: Meaning<U, I, F>, whole: Meaning<U, I, F>)
  {
    && Progress(failAt, before, log, whole.inserts, ahead.inserts)
    && ahead.complete == whole.complete && AddUp(stats, ahead.stats, whole.stats)
  }

  /** The three kinds of section, in terms of what follows them. */
  lemma UserMeaning<U, I, F>(cs: Codecs<U, I, F>, r: seq<byte>, s: Section<U>, after: Meaning<U, I, F>)
    requires s == ReadSection(cs.user, r) && after == AfterSection(cs, s.end, r)
    ensures MeaningFrom(cs, USER_STREAM, r)
            == after.(inserts := SectionInserts(s, WrapUsers) + after.inserts, stats := after.stats.(users := |s.records| + after.stats.users))
  {
  }

  lemma ItemMeaning<U, I, F>(cs: Codecs<U, I, F>, r: seq<byte>, s: Section<I>, after: Meaning<U, I, F>)
    requires s == ReadSection(cs.item, r) && after == AfterSection(cs, s.end, r)
    ensures MeaningFrom(cs, ITEM_STREAM, r)
            == after.(inserts := SectionInserts(s, WrapItems) + after.inserts, stats := after.stats.(items := |s.records| + after.stats.items))
  {
  }

  lemma FeedbackMeaning<U, I, F>(cs: Codecs<U, I, F>, r: seq<byte>, s: Section<F>, after: Meaning<U, I, F>)
    requires s == ReadSection(cs.feedback, r) && after == AfterSection(cs, s.end, r)
    ensures MeaningFrom(cs, FEEDBACK_STREAM, r)
            == after.(inserts := SectionInserts(s, WrapFeedback) + after.inserts, stats := after.stats.(feedback := |s.records| + after.stats.feedback))
  {
  }

  /** One turn of the restore loop, for one kind of record; `m` is the meaning of the bytes from its flag on. */
  method RestoreStream<T, U, I, F>(cs: Codecs<U, I, F>, c: Codec<T>, wrap: seq<T> -> Insert<U, I, F>, r: seq<byte>,
                                   db: DataClient<U, I, F>, ghost before: seq<Insert<U, I, F>>,
                                   ghost m: Meaning<U, I, F>, ghost after: Meaning<U, I, F>, ghost whole: Meaning<U, I, F>)
    returns (ok: bool, next: int, rest: seq<byte>, count: nat)
    requires after == AfterSection(cs, ReadSection(c, r).end, r)
    requires m.inserts == SectionInserts(ReadSection(c, r), wrap) + after.inserts && m.complete == after.complete == whole.complete
    requires Progress(db.failAt, before, db.log, whole.inserts, m.inserts)
    modifies db
    ensures ok ==> |rest| < |r| && count == |ReadSection(c, r).records| && after == MeaningFrom(cs, next, rest)
    ensures ok ==> Progress(db.failAt, before, db.log, whole.inserts, after.inserts)
    ensures !ok ==> !(whole.complete && Accepts(db.failAt, |before|, |whole.inserts|))
    ensures !ok ==> db.log == before + Taken(db.failAt, |before|, whole.inserts)
  {
    ghost var log, inserts := db.log, SectionInserts(ReadSection(c, r), wrap);
    ProgressMany(db.failAt, before, log, whole.inserts, inserts, after.inserts);
    ok, next, rest, count := RestoreSection(c, r, wrap, db);
    if !ok && Accepts(db.failAt, |log|, |inserts|) {
      ProgressDone(db.failAt, before, db.log, whole.inserts);
    }
  }

  /** One turn of the restore loop. */
  method RestoreNext<U, I, F>(cs: Codecs<U, I, F>, flag: int, r: seq<byte>, stats0: Stats, db: DataClient<U, I, F>,
                              ghost before: seq<Insert<U, I, F>>, ghost whole: Meaning<U, I, F>)
    returns (ok: bool, next: int, rest: seq<byte>, stats: Stats)
    requires flag != EOF && OnTheWay(db.failAt, before, db.log, stats0, MeaningFrom(cs, flag, r), whole)
    modifies db
    ensures ok ==> |rest| < |r| && OnTheWay(db.failAt, before, db.log, stats, MeaningFrom(cs, next, rest), whole)
    ensures !ok ==> !(whole.complete && Accepts(db.failAt, |before|, |whole.inserts|))
    ensures !ok ==> db.log == before + Taken(db.failAt, |before|, whole.inserts)
  {
    var count: nat;
    stats := stats0;
    ghost var m := MeaningFrom(cs, flag, r);
    if flag == USER_STREAM {
      ghost var s := ReadSection(cs.user, r);
      ghost var after := AfterSection(cs, s.end, r);
      UserMeaning(cs, r, s, after);
      ok, next, rest, count := RestoreStream(cs, cs.user, WrapUsers, r, db, before, m, after, whole);
      stats := stats.(users := stats.users + count);
    } else if flag == ITEM_STREAM {
      ghost var s := ReadSection(cs.item, r);
      ghost var after := AfterSection(cs, s.end, r);
      ItemMeaning(cs, r, s, after);
      ok, next, rest, count := RestoreStream(cs, cs.item, WrapItems, r, db, before, m, after, whole);
      stats := stats.(items := stats.items + count);
    } else if flag == FEEDBACK_STREAM {
      ghost var s := ReadSection(cs.feedback, r);
      ghost var after := AfterSection(cs, s.end, r);
      FeedbackMeaning(cs, r, s, after);
      ok, next, rest, count := RestoreStream(cs, cs.feedback, WrapFeedback, r, db, before, m, after, whole);
      stats := stats.(feedback := stats.feedback + count);
    } else {
      ProgressDone(db.failAt, before, db.log, whole.inserts);
      ok, next, rest := false, flag, r;
    }
  }

  /**
   The restore loop. Whatever the bytes, it ends, and the database holds the batches of their
   meaning, in order, up to the first refused call; it succeeds exactly when the stream is complete
   and no call was refused.
   */
  method Restore<U, I, F>(cs: Codecs<U, I, F>, r: seq<byte>, db: DataClient<U, I, F>)
    returns (ok: bool, stats: Stats)
    modifies db
    ensures ok <==> MeaningOf(cs, r).complete && Accepts(db.failAt, |old(db.log)|, |MeaningOf(cs, r).inserts|)
    ensures db.log == old(db.log) + Taken(db.failAt, |old(db.log)|, MeaningOf(cs, r).inserts)
    ensures ok ==> stats == MeaningOf(cs, r).stats
  {
    stats := NOTHING;
    var head := ReadInt(8, r);
    if head.None? {
      return false, stats;
    }
    var (flag, rest) := head.value;
    ghost var whole := MeaningOf(cs, r);
    while flag != EOF
      invariant OnTheWay(db.failAt, old(db.log), db.log, stats, MeaningFrom(cs, flag, rest), whole)
      decreases |rest|
    {
      ok, flag, rest, stats := RestoreNext(cs, flag, rest, stats, db, old(db.log), whole);
      if !ok {
        return;
      }
    }
    ProgressDone(db.failAt, old(db.log), db.log, whole.inserts);
    ok := true;
  }

  // ---------- the two undo each other ----------

  /** Batches lose nothing, keep the order and have ten thousand records each but the last, which has at least one. */
  lemma {:induction false} BatchesOfAll<T>(xs: seq<T>)
    ensures Flatten(Batches(xs, true)) == xs
    ensures forall b :: b in Batches(xs, true) ==> 1 <= |b| <= BATCH_SIZE
    ensures forall i :: 0 <= i < |Batches(xs, true)| - 1 ==> |Batches(xs, true)[i]| == 10000
  {
    if |xs| >= BATCH_SIZE {
      BatchesOfAll(xs[BATCH_SIZE..]);
      assert xs[..BATCH_SIZE] + xs[BATCH_SIZE..] == xs;
    } else if xs != [] {
      assert Flatten([xs]) == xs + Flatten([xs][1..]);
    }
  }

  /** The records before the first one that encodes to no bytes; all of them if there is none. */
  function Readable<T>(c: Codec<T>, xs: seq<T>): (n: nat)
    ensures n <= |xs|
  {
    if xs == [] || c.marshal(xs[0]) == [] then 0 else 1 + Readable(c, xs[1..])
  }

  lemma {:induction false} ReadableAll<T>(c: Codec<T>, xs: seq<T>)
    ensures Readable(c, xs) == |xs| <==> NoEmptyRecord(c, xs)
  {
    if xs != [] {
      ReadableAll(c, xs[1..]);
      assert xs == [xs[0]] + xs[1..];
    }
  }

  lemma ReadWrittenRecord<T>(c: Codec<T>, x: T, rest: seq<byte>)
    requires Faithful(c, [x])
    ensures ReadDump(c, WriteDump(c, x) + rest) == if c.marshal(x) == [] then Flag(EOF, rest) else Record(x, rest)
  {
    assert x in [x];
    var bytes := c.marshal(x);
    assert WriteDump(c, x) + rest == Encode(8, |bytes|) + (bytes + rest);
    ReadWrittenInt(8, |bytes|, bytes + rest);
    assert (bytes + rest)[..|bytes|] == bytes && (bytes + rest)[|bytes|..] == rest;
  }

  /** A written section reads back up to the first empty record, which looks like the end mark. */
  lemma {:induction false} ReadWrittenSection<T>(c: Codec<T>, xs: seq<T>, flag: int, rest: seq<byte>)
    requires Faithful(c, xs) && Fits(8, flag) && flag <= 0
    ensures var s := ReadSection(c, WriteAll(c, xs) + (Encode(8, flag) + rest));
            && s.records == xs[..Readable(c, xs)]
            && (NoEmptyRecord(c, xs) ==> s.end == Some((flag, rest)))
            && (!NoEmptyRecord(c, xs) ==> s.end.Some? && s.end.value.0 == EOF)
  {
    ReadableAll(c, xs);
    if xs == [] {
      assert WriteAll(c, xs) + (Encode(8, flag) + rest) == Encode(8, flag) + rest;
      ReadWrittenInt(8, flag, rest);
    } else {
      var x, tail := xs[0], xs[1..];
      assert xs == [x] + tail;
      var after := WriteAll(c, tail) + (Encode(8, flag) + rest);
      ConcatAssoc(WriteDump(c, x), WriteAll(c, tail), Encode(8, flag) + rest);
      ReadWrittenRecord(c, x, after);
      if c.marshal(x) != [] {
        ReadWrittenSection(c, tail, flag, rest);
        ReadableAll(c, tail);
      }
    }
  }

  /** Behind an empty record there is always something left unread, at least the next flag. */
  lemma {:induction false} UnreadBehindEmpty<T>(c: Codec<T>, xs: seq<T>, flag: int, rest: seq<byte>)
    requires Faithful(c, xs) && Fits(8, flag) && !NoEmptyRecord(c, xs)
    ensures var end := ReadSection(c, WriteAll(c, xs) + (Encode(8, flag) + rest)).end;
            end.Some? && |end.value.1| >= 8 + |rest|
  {
    var x, tail := xs[0], xs[1..];
    assert xs == [x] + tail;
    var after := WriteAll(c, tail) + (Encode(8, flag) + rest);
    assert WriteAll(c, xs) + (Encode(8, flag) + rest) == WriteDump(c, x) + after;
    ReadWrittenRecord(c, x, after);
    if c.marshal(x) != [] {
      UnreadBehindEmpty(c, tail, flag, rest);
    }
  }

  /** What reading a written section gives: all of it, or a part that an empty record ends, with more left unread. */
  ghost predicate ReadBack<T>(c: Codec<T>, xs: seq<T>, s: Section<T>, flag: int, rest: seq<byte>) {
    && s.end.Some?
    && if NoEmptyRecord(c, xs) then s == Section(xs, Some((flag, rest)))
       else s.end.value.0 == EOF && |s.end.value.1| >= 8 && |s.records| < |xs|
  }

  lemma WrittenSection<T>(c: Codec<T>, xs: seq<T>, flag: int, rest: seq<byte>)
    requires Faithful(c, xs) && Fits(8, flag) && flag <= 0
    ensures ReadBack(c, xs, ReadSection(c, WriteAll(c, xs) + (Encode(8, flag) + rest)), flag, rest)
  {
    ReadableAll(c, xs);
    ReadWrittenSection(c, xs, flag, rest);
    assert xs[..|xs|] == xs;
    if !NoEmptyRecord(c, xs) {
      UnreadBehindEmpty(c, xs, flag, rest);
    }
  }

  /** What should be inserted: the batches of the three lists, users first. */
  function FullInserts<U, I, F>(users: seq<U>, items: seq<I>, feedback: seq<F>): seq<Insert<U, I, F>> {
    Map(Batches(users, true), WrapUsers) + (Map(Batches(items, true), WrapItems)
    + (Map(Batches(feedback, true), WrapFeedback) + []))
  }

  lemma DumpLayout<U, I, F>(cs: Codecs<U, I, F>, users: seq<U>, items: seq<I>, feedback: seq<F>, trailing: seq<byte>)
    requires Faithful(cs.user, users) && Faithful(cs.item, items) && Faithful(cs.feedback, feedback)
    ensures DumpBytes(cs, users, items, feedback) + trailing
            == Encode(8, USER_STREAM) + (WriteAll(cs.user, users)
               + (Encode(8, ITEM_STREAM) + (WriteAll(cs.item, items)
               + (Encode(8, FEEDBACK_STREAM) + (WriteAll(cs.feedback, feedback) + (Encode(8, EOF) + trailing))))))
  {
    var f0 := WriteAll(cs.feedback, feedback) + Encode(8, EOF);
    var i0 := WriteAll(cs.item, items) + (Encode(8, FEEDBACK_STREAM) + f0);
    var u0 := WriteAll(cs.user, users) + (Encode(8, ITEM_STREAM) + i0);
    ConcatAssoc(WriteAll(cs.feedback, feedback), Encode(8, EOF), trailing);
    ConcatAssoc(Encode(8, FEEDBACK_STREAM), f0, trailing);
    ConcatAssoc(WriteAll(cs.item, items), Encode(8, FEEDBACK_STREAM) + f0, trailing);
    ConcatAssoc(Encode(8, ITEM_STREAM), i0, trailing);
    ConcatAssoc(WriteAll(cs.user, users), Encode(8, ITEM_STREAM) + i0, trailing);
    ConcatAssoc(Encode(8, USER_STREAM), u0, trailing);
  }

  /** The three sections of a dump, each read where it begins. */
  lemma DumpSections<U, I, F>(cs: Codecs<U, I, F>, users: seq<U>, items: seq<I>, feedback: seq<F>, trailing: seq<byte>)
    returns (u: seq<byte>, i: seq<byte>, f: seq<byte>)
    requires Faithful(cs.user, users) && Faithful(cs.item, items) && Faithful(cs.feedback, feedback)
    ensures MeaningOf(cs, DumpBytes(cs, users, items, feedback) + trailing) == MeaningFrom(cs, USER_STREAM, u)
    ensures ReadBack(cs.user, users, ReadSection(cs.user, u), ITEM_STREAM, i)
    ensures ReadBack(cs.item, items, ReadSection(cs.item, i), FEEDBACK_STREAM, f)
    ensures ReadBack(cs.feedback, feedback, ReadSection(cs.feedback, f), EOF, trailing)
  {
    f := WriteAll(cs.feedback, feedback) + (Encode(8, EOF) + trailing);
    i := WriteAll(cs.item, items) + (Encode(8, FEEDBACK_STREAM) + f);
    u := WriteAll(cs.user, users) + (Encode(8, ITEM_STREAM) + i);
    DumpLayout(cs, users, items, feedback, trailing);
    ReadWrittenInt(8, USER_STREAM, u);
    WrittenSection(cs.feedback, feedback, EOF, trailing);
    WrittenSection(cs.item, items, FEEDBACK_STREAM, f);
    WrittenSection(cs.user, users, ITEM_STREAM, i);
  }

  /**
   A dump followed by any bytes at all means exactly the three lists, batch by batch, and leaves
   those bytes unread.
   */
  lemma RoundTrip<U, I, F>(cs: Codecs<U, I, F>, users: seq<U>, items: seq<I>, feedback: seq<F>, trailing: seq<byte>)
    requires Faithful(cs.user, users) && Faithful(cs.item, items) && Faithful(cs.feedback, feedback)
    requires NoEmptyRecord(cs.user, users) && NoEmptyRecord(cs.item, items) && NoEmptyRecord(cs.feedback, feedback)
    ensures MeaningOf(cs, DumpBytes(cs, users, items, feedback) + trailing)
            == Meaning(FullInserts(users, items, feedback), Stats(|users|, |items|, |feedback|), true, trailing)
  {
    var u, i, f := DumpSections(cs, users, items, feedback, trailing);
    var su, si, sf := ReadSection(cs.user, u), ReadSection(cs.item, i), ReadSection(cs.feedback, f);
    FeedbackMeaning(cs, f, sf, AfterSection(cs, sf.end, f));
    assert MeaningFrom(cs, FEEDBACK_STREAM, f).stats == Stats(0, 0, |feedback|);
    ItemMeaning(cs, i, si, MeaningFrom(cs, FEEDBACK_STREAM, f));
    assert MeaningFrom(cs, ITEM_STREAM, i).stats == Stats(0, |items|, |feedback|);
    UserMeaning(cs, u, su, MeaningFrom(cs, ITEM_STREAM, i));
  }

  /**
   The exact limit of the format: a dump is read back in full if and only if no record encodes to
   zero bytes. Otherwise the restore reports success and loses everything from that record on.
   */
  lemma RoundTripExactly<U, I, F>(cs: Codecs<U, I, F>, users: seq<U>, items: seq<I>, feedback: seq<F>, trailing: seq<byte>)
    requires Faithful(cs.user, users) && Faithful(cs.item, items) && Faithful(cs.feedback, feedback)
    ensures MeaningOf(cs, DumpBytes(cs, users, items, feedback) + trailing).complete
    ensures MeaningOf(cs, DumpBytes(cs, users, items, feedback) + trailing).stats == Stats(|users|, |items|, |feedback|)
            <==> NoEmptyRecord(cs.user, users) && NoEmptyRecord(cs.item, items) && NoEmptyRecord(cs.feedback, feedback)
    ensures !(NoEmptyRecord(cs.user, users) && NoEmptyRecord(cs.item, items) && NoEmptyRecord(cs.feedback, feedback))
            ==> |MeaningOf(cs, DumpBytes(cs, users, items, feedback) + trailing).rest| >= 8
  {
    if NoEmptyRecord(cs.user, users) && NoEmptyRecord(cs.item, items) && NoEmptyRecord(cs.feedback, feedback) {
      RoundTrip(cs, users, items, feedback, trailing);
    } else {
      var u, i, f := DumpSections(cs, users, items, feedback, trailing);
      var su, si, sf := ReadSection(cs.user, u), ReadSection(cs.item, i), ReadSection(cs.feedback, f);
      UserMeaning(cs, u, su, AfterSection(cs, su.end, u));
      if NoEmptyRecord(cs.user, users) {
        ItemMeaning(cs, i, si, AfterSection(cs, si.end, i));
        if NoEmptyRecord(cs.item, items) {
          FeedbackMeaning(cs, f, sf, AfterSection(cs, sf.end, f));
        }
      }
    }
  }

  // ---------- an interrupted dump is noticed ----------

  lemma CutRecord<T>(c: Codec<T>, x: T, after: seq<byte>, k: nat)
    requires Faithful(c, [x]) && c.marshal(x) != [] && k <= |WriteDump(c, x) + after|
    ensures var f := ReadDump(c, (WriteDump(c, x) + after)[..k]);
            var n := |WriteDump(c, x)|;
            if k < n then f.Unreadable? else f == Record(x, after[..k - n])
  {
    assert x in [x];
    var bytes := c.marshal(x);
    var n := |WriteDump(c, x)|;
    var all := WriteDump(c, x) + after;
    if 8 <= k < n {
      assert all[..k] == Encode(8, |bytes|) + bytes[..k - 8];
      ReadWrittenInt(8, |bytes|, bytes[..k - 8]);
    } else if k >= n {
      assert all[..k] == WriteDump(c, x) + after[..k - n];
      ReadWrittenRecord(c, x, after[..k - n]);
    }
  }

  lemma {:induction false} CutSection<T>(c: Codec<T>, xs: seq<T>, flag: int, rest: seq<byte>, k: nat)
    requires Faithful(c, xs) && NoEmptyRecord(c, xs) && Fits(8, flag) && flag <= 0
    requires k <= |WriteAll(c, xs) + (Encode(8, flag) + rest)|
    ensures var end := ReadSection(c, (WriteAll(c, xs) + (Encode(8, flag) + rest))[..k]).end;
            var n := |WriteAll(c, xs)| + 8;
            if k < n then end.None? else end == Some((flag, rest[..k - n]))
  {
    if xs == [] {
      if k >= 8 {
        assert (Encode(8, flag) + rest)[..k] == Encode(8, flag) + rest[..k - 8];
        ReadWrittenInt(8, flag, rest[..k - 8]);
      }
      assert WriteAll(c, xs) + (Encode(8, flag) + rest) == Encode(8, flag) + rest;
    } else {
      var x, tail := xs[0], xs[1..];
      assert xs == [x] + tail;
      var after := WriteAll(c, tail) + (Encode(8, flag) + rest);
      ConcatAssoc(WriteDump(c, x), WriteAll(c, tail), Encode(8, flag) + rest);
      CutStep(c, x, after, k);
      if k >= |WriteDump(c, x)| {
        CutSection(c, tail, flag, rest, k - |WriteDump(c, x)|);
      }
    }
  }

  /** How a section that begins with a record ends depends on what follows the record, if the cut leaves it whole. */
  lemma CutStep<T>(c: Codec<T>, x: T, after: seq<byte>, k: nat)
    requires Faithful(c, [x]) && c.marshal(x) != [] && k <= |WriteDump(c, x) + after|
    ensures var n := |WriteDump(c, x)|;
            ReadSection(c, (WriteDump(c, x) + after)[..k]).end == if k < n then None else ReadSection(c, after[..k - n]).end
  {
    CutRecord(c, x, after, k);
  }

  /** What follows the flag of the last section. */
  ghost function FeedbackTail<U, I, F>(cs: Codecs<U, I, F>, feedback: seq<F>): seq<byte>
    requires Faithful(cs.feedback, feedback)
  {
    WriteAll(cs.feedback, feedback) + (Encode(8, EOF) + [])
  }

  ghost function ItemTail<U, I, F>(cs: Codecs<U, I, F>, items: seq<I>, feedback: seq<F>): seq<byte>
    requires Faithful(cs.item, items) && Faithful(cs.feedback, feedback)
  {
    WriteAll(cs.item, items) + (Encode(8, FEEDBACK_STREAM) + FeedbackTail(cs, feedback))
  }

  ghost function UserTail<U, I, F>(cs: Codecs<U, I, F>, users: seq<U>, items: seq<I>, feedback: seq<F>): seq<byte>
    requires Faithful(cs.user, users) && Faithful(cs.item, items) && Faithful(cs.feedback, feedback)
  {
    WriteAll(cs.user, users) + (Encode(8, ITEM_STREAM) + ItemTail(cs, items, feedback))
  }

  /** Where the section that a flag announces ends. */
  function SectionEnd<U, I, F>(cs: Codecs<U, I, F>, flag: int, r: seq<byte>): (end: Option<(int, seq<byte>)>)
    ensures end.Some? ==> |end.value.1| < |r|
  {
    if flag == USER_STREAM then ReadSection(cs.user, r).end
    else if flag == ITEM_STREAM then ReadSection(cs.item, r).end
    else if flag == FEEDBACK_STREAM then ReadSection(cs.feedback, r).end
    else None
  }

  /** A stream is complete if its first section ends and what follows is complete. */
  lemma CompleteStep<U, I, F>(cs: Codecs<U, I, F>, flag: int, r: seq<byte>)
    requires flag != EOF
    ensures var m, end := MeaningFrom(cs, flag, r), SectionEnd(cs, flag, r);
            && (m.complete <==> end.Some? && MeaningFrom(cs, end.value.0, end.value.1).complete)
            && (m.complete ==> m.rest == MeaningFrom(cs, end.value.0, end.value.1).rest)
  {
    if flag == USER_STREAM {
      UserMeaning(cs, r, ReadSection(cs.user, r), AfterSection(cs, SectionEnd(cs, flag, r), r));
    } else if flag == ITEM_STREAM {
      ItemMeaning(cs, r, ReadSection(cs.item, r), AfterSection(cs, SectionEnd(cs, flag, r), r));
    } else if flag == FEEDBACK_STREAM {
      FeedbackMeaning(cs, r, ReadSection(cs.feedback, r), AfterSection(cs, SectionEnd(cs, flag, r), r));
    }
  }

  /** The first k bytes are a complete stream exactly if nothing is cut off. */
  ghost predicate CompleteUncut<U, I, F>(cs: Codecs<U, I, F>, flag: int, all: seq<byte>, k: nat)
    requires k <= |all|
  {
    MeaningFrom(cs, flag, all[..k]).complete <==> k == |all|
  }

  lemma CutStream<T, U, I, F>(cs: Codecs<U, I, F>, flag: int, c: Codec<T>, xs: seq<T>, next: int, rest: seq<byte>, k: nat)
    requires Faithful(c, xs) && NoEmptyRecord(c, xs) && Fits(8, next) && next <= 0 && flag != EOF
    requires k <= |WriteAll(c, xs) + (Encode(8, next) + rest)|
    requires forall r :: SectionEnd(cs, flag, r) == ReadSection(c, r).end
    requires var n := |WriteAll(c, xs)| + 8; k >= n ==> CompleteUncut(cs, next, rest, k - n)
    ensures CompleteUncut(cs, flag, WriteAll(c, xs) + (Encode(8, next) + rest), k)
  {
    CutSection(c, xs, next, rest, k);
    CompleteStep(cs, flag, (WriteAll(c, xs) + (Encode(8, next) + rest))[..k]);
  }

  lemma CutFeedback<U, I, F>(cs: Codecs<U, I, F>, feedback: seq<F>, k: nat)
    requires Faithful(cs.feedback, feedback) && NoEmptyRecord(cs.feedback, feedback) && k <= |FeedbackTail(cs, feedback)|
    ensures CompleteUncut(cs, FEEDBACK_STREAM, FeedbackTail(cs, feedback), k)
  {
    CutStream(cs, FEEDBACK_STREAM, cs.feedback, feedback, EOF, [], k);
  }

  lemma CutItems<U, I, F>(cs: Codecs<U, I, F>, items: seq<I>, feedback: seq<F>, k: nat)
    requires Faithful(cs.item, items) && NoEmptyRecord(cs.item, items)
    requires Faithful(cs.feedback, feedback) && NoEmptyRecord(cs.feedback, feedback)
    requires k <= |ItemTail(cs, items, feedback)|
    ensures CompleteUncut(cs, ITEM_STREAM, ItemTail(cs, items, feedback), k)
  {
    var n := |WriteAll(cs.item, items)| + 8;
    if k >= n {
      CutFeedback(cs, feedback, k - n);
    }
    CutStream(cs, ITEM_STREAM, cs.item, items, FEEDBACK_STREAM, FeedbackTail(cs, feedback), k);
  }

  lemma CutUsers<U, I, F>(cs: Codecs<U, I, F>, users: seq<U>, items: seq<I>, feedback: seq<F>, k: nat)
    requires Faithful(cs.user, users) && Faithful(cs.item, items) && Faithful(cs.feedback, feedback)
    requires NoEmptyRecord(cs.user, users) && NoEmptyRecord(cs.item, items) && NoEmptyRecord(cs.feedback, feedback)
    requires k <= |UserTail(cs, users, items, feedback)|
    ensures CompleteUncut(cs, USER_STREAM, UserTail(cs, users, items, feedback), k)
  {
    var n := |WriteAll(cs.user, users)| + 8;
    if k >= n {
      CutItems(cs, items, feedback, k - n);
    }
    CutStream(cs, USER_STREAM, cs.user, users, ITEM_STREAM, ItemTail(cs, items, feedback), k);
  }

  lemma FramePrefix<T>(c: Codec<T>, r: seq<byte>, m: nat)
    requires !ReadDump(c, r).Unreadable? && m <= |ReadDump(c, r).rest|
    ensures var f := ReadDump(c, r);
            ReadDump(c, r[..|r| - m]) == f.(rest := f.rest[..|f.rest| - m])
  {
    var cut := r[..|r| - m];
    assert cut[..8] == r[..8] && cut[8..] == r[8..][..|r| - 8 - m];
    var size := ReadInt(8, r).value.0;
    if size > 0 {
      assert cut[8..][..size] == r[8..][..size];
      assert cut[8..][size..] == r[8..][size..][..|r| - 8 - size - m];
    }
  }

  /** Bytes behind the end of a section can be cut off. */
  lemma {:induction false} SectionPrefix<T>(c: Codec<T>, r: seq<byte>, flag: int, rest: seq<byte>, m: nat)
    requires ReadSection(c, r).end == Some((flag, rest)) && m <= |rest|
    ensures |rest| < |r| && ReadSection(c, r[..|r| - m]).end == Some((flag, rest[..|rest| - m]))
    decreases |r|
  {
    var f, cut := ReadDump(c, r), r[..|r| - m];
    SectionUnfold(c, r);
    FramePrefix(c, r, m);
    SectionUnfold(c, cut);
    match f
    case Flag(_, _) =>
      assert ReadDump(c, cut) == Flag(flag, rest[..|rest| - m]);
    case Record(x, next) =>
      assert ReadDump(c, cut) == Record(x, next[..|next| - m]);
      SectionPrefix(c, next, flag, rest, m);
  }

  lemma SectionUnfold<T>(c: Codec<T>, r: seq<byte>)
    ensures ReadSection(c, r).end == match ReadDump(c, r)
                                     case Unreadable => None
                                     case Flag(flag, rest) => Some((flag, rest))
                                     case Record(_, rest) => ReadSection(c, rest).end
    ensures ReadDump(c, r).Record? && ReadSection(c, r).end.Some? ==> |ReadSection(c, r).end.value.1| < |ReadDump(c, r).rest|
  {
  }

  lemma EndPrefix<U, I, F>(cs: Codecs<U, I, F>, flag: int, r: seq<byte>, m: nat)
    requires SectionEnd(cs, flag, r).Some? && m <= |SectionEnd(cs, flag, r).value.1|
    ensures var (next, rest) := SectionEnd(cs, flag, r).value;
            SectionEnd(cs, flag, r[..|r| - m]) == Some((next, rest[..|rest| - m]))
  {
    var (next, rest) := SectionEnd(cs, flag, r).value;
    if flag == USER_STREAM {
      SectionPrefix(cs.user, r, next, rest, m);
    } else if flag == ITEM_STREAM {
      SectionPrefix(cs.item, r, next, rest, m);
    } else {
      SectionPrefix(cs.feedback, r, next, rest, m);
    }
  }

  /** Bytes behind the end mark can be cut off. */
  lemma {:induction false} MeaningPrefix<U, I, F>(cs: Codecs<U, I, F>, flag: int, r: seq<byte>, m: nat)
    requires MeaningFrom(cs, flag, r).complete && m <= |MeaningFrom(cs, flag, r).rest|
    ensures m <= |r| && MeaningFrom(cs, flag, r[..|r| - m]).complete
    decreases |r|
  {
    if flag != EOF {
      CompleteStep(cs, flag, r);
      var (next, rest) := SectionEnd(cs, flag, r).value;
      MeaningPrefix(cs, next, rest, m);
      EndPrefix(cs, flag, r, m);
      CompleteStep(cs, flag, r[..|r| - m]);
    }
  }

  lemma MeaningOfPrefix<U, I, F>(cs: Codecs<U, I, F>, r: seq<byte>)
    requires MeaningOf(cs, r).complete && |MeaningOf(cs, r).rest| >= 1
    ensures |r| > 0 && MeaningOf(cs, r[..|r| - 1]).complete
  {
    var (flag, rest) := ReadInt(8, r).value;
    MeaningPrefix(cs, flag, rest, 1);
    assert r[..|r| - 1][..8] == r[..8] && r[..|r| - 1][8..] == rest[..|rest| - 1];
  }

  lemma DumpHead<U, I, F>(cs: Codecs<U, I, F>, users: seq<U>, items: seq<I>, feedback: seq<F>)
    requires Faithful(cs.user, users) && Faithful(cs.item, items) && Faithful(cs.feedback, feedback)
    ensures DumpBytes(cs, users, items, feedback) == Encode(8, USER_STREAM) + UserTail(cs, users, items, feedback)
  {
    assert Encode(8, EOF) + [] == Encode(8, EOF);
  }

  lemma {:induction false} CutAnywhere<U, I, F>(cs: Codecs<U, I, F>, users: seq<U>, items: seq<I>, feedback: seq<F>, k: nat)
    requires Faithful(cs.user, users) && Faithful(cs.item, items) && Faithful(cs.feedback, feedback)
    requires NoEmptyRecord(cs.user, users) && NoEmptyRecord(cs.item, items) && NoEmptyRecord(cs.feedback, feedback)
    requires k < |DumpBytes(cs, users, items, feedback)|
    ensures !MeaningOf(cs, DumpBytes(cs, users, items, feedback)[..k]).complete
  {
    var all := DumpBytes(cs, users, items, feedback);
    DumpHead(cs, users, items, feedback);
    CutHead(cs, all, UserTail(cs, users, items, feedback), k);
    if k >= 8 {
      CutUsers(cs, users, items, feedback, k - 8);
    }
  }

  /** An interrupted dump is noticed wherever it is cut if and only if no record encodes to zero bytes. */
  lemma CutDumpIsIncomplete<U, I, F>(cs: Codecs<U, I, F>, users: seq<U>, items: seq<I>, feedback: seq<F>)
    requires Faithful(cs.user, users) && Faithful(cs.item, items) && Faithful(cs.feedback, feedback)
    ensures (forall k :: 0 <= k < |DumpBytes(cs, users, items, feedback)| ==>
               !MeaningOf(cs, DumpBytes(cs, users, items, feedback)[..k]).complete)
            <==> NoEmptyRecord(cs.user, users) && NoEmptyRecord(cs.item, items) && NoEmptyRecord(cs.feedback, feedback)
  {
    var all := DumpBytes(cs, users, items, feedback);
    if NoEmptyRecord(cs.user, users) && NoEmptyRecord(cs.item, items) && NoEmptyRecord(cs.feedback, feedback) {
      forall k | 0 <= k < |all|
        ensures !MeaningOf(cs, all[..k]).complete
      {
        CutAnywhere(cs, users, items, feedback, k);
      }
    } else {
      RoundTripExactly(cs, users, items, feedback, []);
      assert all + [] == all;
      MeaningOfPrefix(cs, all);
    }
  }

  lemma CutHead<U, I, F>(cs: Codecs<U, I, F>, all: seq<byte>, u: seq<byte>, k: nat)
    requires all == Encode(8, USER_STREAM) + u && k <= |all|
    ensures MeaningOf(cs, all[..k]).complete <==> k >= 8 && MeaningFrom(cs, USER_STREAM, u[..k - 8]).complete
  {
    if k >= 8 {
      assert all[..k] == Encode(8, USER_STREAM) + u[..k - 8];
      ReadWrittenInt(8, USER_STREAM, u[..k - 8]);
    }
  }
}
