/**
 What a restore puts into the database, record by record: the insert calls are read by their constructors
 and compared with the frames of the stream.
 */
module DumpContents {
  import opened Seqs
  import opened Bytes
  import opened DumpRestore

  /** One record of any kind. */
  datatype Token<+U, +I, +F> = UserRecord(user: U) | ItemRecord(item: I) | FeedbackRecord(feedback: F)

  function AsUser<U, I, F>(x: U): Token<U, I, F> { UserRecord(x) }

  function AsItem<U, I, F>(x: I): Token<U, I, F> { ItemRecord(x) }

  function AsFeedback<U, I, F>(x: F): Token<U, I, F> { FeedbackRecord(x) }

  /** The records that one call inserts. */
  function Held<U, I, F>(insert: Insert<U, I, F>): seq<Token<U, I, F>> {
    match insert
    case InsertUsers(users) => Map(users, AsUser)
    case InsertItems(items) => Map(items, AsItem)
    case InsertFeedback(feedback) => Map(feedback, AsFeedback)
  }

  /** The records of a log, in the order in which they are inserted. */
  function Contents<U, I, F>(log: seq<Insert<U, I, F>>): seq<Token<U, I, F>> {
    if log == [] then [] else Held(log[0]) + Contents(log[1..])
  }

  /** No call is empty or inserts more than ten thousand records. */
  ghost predicate Sized<U, I, F>(log: seq<Insert<U, I, F>>) {
    forall i :: i in log ==> 1 <= |Held(i)| <= 10000
  }

  lemma {:induction false} ContentsConcat<U, I, F>(a: seq<Insert<U, I, F>>, b: seq<Insert<U, I, F>>)
    ensures Contents(a + b) == Contents(a) + Contents(b)
  {
    if a == [] {
      assert a + b == b;
    } else {
      assert (a + b)[1..] == a[1..] + b;
      ContentsConcat(a[1..], b);
    }
  }

  /** The records of a stream, read one frame after the other, whatever section they are in. */
  function Records<U, I, F>(cs: Codecs<U, I, F>, flag: int, r: seq<byte>): seq<Token<U, I, F>>
    decreases |r|, 1
  {
    if flag == -1 then Stream(cs, cs.user, AsUser, r)
    else if flag == -2 then Stream(cs, cs.item, AsItem, r)
    else if flag == -3 then Stream(cs, cs.feedback, AsFeedback, r)
    else []
  }

  function Stream<T, U, I, F>(cs: Codecs<U, I, F>, c: Codec<T>, tag: T -> Token<U, I, F>, r: seq<byte>): seq<Token<U, I, F>>
    decreases |r|, 0
  {
    match ReadDump(c, r)
    case Unreadable => []
    case Flag(flag, rest) => Records(cs, flag, rest)
    case Record(x, rest) => [tag(x)] + Stream(cs, c, tag, rest)
  }

  function RecordsOf<U, I, F>(cs: Codecs<U, I, F>, r: seq<byte>): seq<Token<U, I, F>> {
    var head := ReadInt(8, r);
    if head.None? then [] else Records(cs, head.value.0, head.value.1)
  }

  lemma {:induction false} StreamIsSection<T, U, I, F>(cs: Codecs<U, I, F>, c: Codec<T>, tag: T -> Token<U, I, F>, r: seq<byte>)
    ensures var s := ReadSection(c, r);
            Stream(cs, c, tag, r) == Map(s.records, tag) + if s.end.Some? then Records(cs, s.end.value.0, s.end.value.1) else []
    decreases |r|
  {
    var f := ReadDump(c, r);
    if f.Record? {
      var tail := ReadSection(c, f.rest);
      StreamIsSection(cs, c, tag, f.rest);
      MapConcat([f.value], tail.records, tag);
      assert Map([f.value], tag) == [tag(f.value)];
    }
  }

  /** The beginning of a list: all of it if the stream was complete, and in any case all but fewer than a batch. */
  ghost predicate Reaches<T>(part: seq<T>, all: seq<T>, complete: bool) {
    part <= all && |all| < |part| + 10000 && (complete ==> part == all)
  }

  /** A call holds exactly the batch it was made for. */
  ghost predicate Wraps<T(!new), U, I, F>(wrap: seq<T> -> Insert<U, I, F>, tag: T -> Token<U, I, F>) {
    forall b :: Held(wrap(b)) == Map(b, tag)
  }

  /** Batches hold their records in order; of a section that breaks off the last ones are missing, fewer than a batch. */
  lemma {:induction false} BatchesHold<T(!new), U, I, F>(xs: seq<T>, complete: bool, wrap: seq<T> -> Insert<U, I, F>, tag: T -> Token<U, I, F>)
    requires Wraps(wrap, tag)
    ensures Sized(Map(Batches(xs, complete), wrap))
    ensures Reaches(Contents(Map(Batches(xs, complete), wrap)), Map(xs, tag), complete)
  {
    if |xs| >= BATCH_SIZE {
      var head, tail := xs[..BATCH_SIZE], xs[BATCH_SIZE..];
      BatchesHold(tail, complete, wrap, tag);
      HeldFirst(wrap(head), Map(Batches(tail, complete), wrap), Map(head, tag), Map(tail, tag), complete);
      MapConcat(head, tail, tag);
      assert xs == head + tail;
      assert Map(Batches(xs, complete), wrap) == [wrap(head)] + Map(Batches(tail, complete), wrap);
    } else if xs != [] && complete {
      assert Map([xs], wrap) == [wrap(xs)] && [wrap(xs)][1..] == [];
      assert Contents([wrap(xs)]) == Held(wrap(xs)) + [] == Map(xs, tag);
    }
  }

  lemma HeldFirst<U, I, F>(first: Insert<U, I, F>, more: seq<Insert<U, I, F>>, own: seq<Token<U, I, F>>, rest: seq<Token<U, I, F>>,
                           complete: bool)
    requires Held(first) == own && 1 <= |own| <= 10000 && Sized(more) && Reaches(Contents(more), rest, complete)
    ensures Sized([first] + more) && Reaches(Contents([first] + more), own + rest, complete)
  {
    assert ([first] + more)[1..] == more;
    ReachesBehind(own, Contents(more), rest, complete);
  }

  lemma MapConcat<T, V>(s: seq<T>, t: seq<T>, f: T -> V)
    ensures Map(s + t, f) == Map(s, f) + Map(t, f)
  {
  }

  /** How many records of each kind. */
  function Tally<U, I, F>(all: seq<Token<U, I, F>>): Stats {
    if all == [] then Stats(0, 0, 0)
    else
      var more := Tally(all[1..]);
      match all[0]
      case UserRecord(_) => more.(users := more.users + 1)
      case ItemRecord(_) => more.(items := more.items + 1)
      case FeedbackRecord(_) => more.(feedback := more.feedback + 1)
  }

  lemma {:induction false} TallyConcat<U, I, F>(a: seq<Token<U, I, F>>, b: seq<Token<U, I, F>>)
    ensures AddUp(Tally(a), Tally(b), Tally(a + b))
  {
    if a == [] {
      assert a + b == b;
    } else {
      assert (a + b)[1..] == a[1..] + b;
      TallyConcat(a[1..], b);
    }
  }

  lemma {:induction false} TallyOfKind<U, I, F>(all: seq<Token<U, I, F>>)
    ensures (forall x :: x in all ==> x.UserRecord?) ==> Tally(all) == Stats(|all|, 0, 0)
    ensures (forall x :: x in all ==> x.ItemRecord?) ==> Tally(all) == Stats(0, |all|, 0)
    ensures (forall x :: x in all ==> x.FeedbackRecord?) ==> Tally(all) == Stats(0, 0, |all|)
  {
    if all != [] {
      TallyOfKind(all[1..]);
      assert all[0] in all && forall x :: x in all[1..] ==> x in all;
    }
  }

  /** A meaning inserts the records of a stream, as far as it reaches, and counts all of them. */
  ghost predicate MeansRecords<U, I, F>(m: Meaning<U, I, F>, all: seq<Token<U, I, F>>) {
    Sized(m.inserts) && Reaches(Contents(m.inserts), all, m.complete) && m.stats == Tally(all)
  }

  /** What comes after a complete part reaches as far as before. */
  lemma ReachesBehind<T>(head: seq<T>, part: seq<T>, all: seq<T>, complete: bool)
    requires Reaches(part, all, complete)
    ensures Reaches(head + part, head + all, complete)
  {
  }

  /** A section whose inserts hold its records, followed by a meaning that holds the rest. */
  lemma MeaningHolds<U, I, F>(section: seq<Insert<U, I, F>>, own: seq<Token<U, I, F>>, end: bool,
                              after: Meaning<U, I, F>, rest: seq<Token<U, I, F>>, m: Meaning<U, I, F>)
    requires Sized(section) && Reaches(Contents(section), own, end)
    requires if end then MeansRecords(after, rest) else after == Meaning([], NOTHING, false, []) && rest == []
    requires m.inserts == section + after.inserts && m.complete == after.complete && AddUp(Tally(own), after.stats, m.stats)
    ensures MeansRecords(m, own + rest)
  {
    ContentsConcat(section, after.inserts);
    TallyConcat(own, rest);
    SameSum(Tally(own), after.stats, m.stats, Tally(own + rest));
    if end {
      ReachesBehind(own, Contents(after.inserts), rest, m.complete);
    } else {
      assert Contents(section) + Contents(after.inserts) == Contents(section) && own + rest == own;
    }
  }

  lemma SameSum(a: Stats, b: Stats, s: Stats, t: Stats)
    requires AddUp(a, b, s) && AddUp(a, b, t)
    ensures s == t
  {
  }

  /** If what follows a section means its records, so do both together. */
  lemma SectionHolds<T(!new), U, I, F>(cs: Codecs<U, I, F>, c: Codec<T>, wrap: seq<T> -> Insert<U, I, F>, tag: T -> Token<U, I, F>,
                                 r: seq<byte>, after: Meaning<U, I, F>, m: Meaning<U, I, F>)
    requires Wraps(wrap, tag)
    requires after == AfterSection(cs, ReadSection(c, r).end, r) && MeansRest(cs, ReadSection(c, r).end, after)
    requires m.inserts == SectionInserts(ReadSection(c, r), wrap) + after.inserts && m.complete == after.complete
    requires AddUp(Tally(Map(ReadSection(c, r).records, tag)), after.stats, m.stats)
    ensures MeansRecords(m, Stream(cs, c, tag, r))
  {
    var s := ReadSection(c, r);
    var rest := if s.end.Some? then Records(cs, s.end.value.0, s.end.value.1) else [];
    BatchesHold(s.records, s.end.Some?, wrap, tag);
    StreamIsSection(cs, c, tag, r);
    MeaningHolds(SectionInserts(s, wrap), Map(s.records, tag), s.end.Some?, after, rest, m);
  }

  /**
   What a restore inserts, for any bytes: the records of the stream in order, one to ten thousand per call. All of
   them if the stream is complete; otherwise the last ones of the section that breaks off are missing, fewer than
   ten thousand. The statistics count the records of each kind.
   */
  lemma {:induction false} InsertsAreRecords<U(!new), I(!new), F(!new)>(cs: Codecs<U, I, F>, flag: int, r: seq<byte>)
    ensures MeansRecords(MeaningFrom(cs, flag, r), Records(cs, flag, r))
    decreases |r|
  {
    var m, end := MeaningFrom(cs, flag, r), SectionEnd(cs, flag, r);
    var after := AfterSection(cs, end, r);
    if end.Some? {
      InsertsAreRecords(cs, end.value.0, end.value.1);
    }
    if flag == USER_STREAM {
      UsersHold(cs, r, after);
    } else if flag == ITEM_STREAM {
      ItemsHold(cs, r, after);
    } else if flag == FEEDBACK_STREAM {
      FeedbackHolds(cs, r, after);
    }
  }

  /** What follows a section, if it ends, means its records. */
  ghost predicate MeansRest<U, I, F>(cs: Codecs<U, I, F>, end: Option<(int, seq<byte>)>, after: Meaning<U, I, F>) {
    end.Some? ==> MeansRecords(after, Records(cs, end.value.0, end.value.1))
  }

  lemma UsersHold<U(!new), I(!new), F(!new)>(cs: Codecs<U, I, F>, r: seq<byte>, after: Meaning<U, I, F>)
    requires after == AfterSection(cs, ReadSection(cs.user, r).end, r) && MeansRest(cs, ReadSection(cs.user, r).end, after)
    ensures MeansRecords(MeaningFrom(cs, USER_STREAM, r), Records(cs, USER_STREAM, r))
  {
    var s := ReadSection(cs.user, r);
    UserMeaning(cs, r, s, after);
    UserBatches<U, I, F>(s.records);
    SectionHolds(cs, cs.user, WrapUsers, AsUser, r, after, MeaningFrom(cs, USER_STREAM, r));
  }

  lemma UserBatches<U(!new), I(!new), F(!new)>(xs: seq<U>)
    ensures Wraps<U, U, I, F>(WrapUsers, AsUser) && Tally<U, I, F>(Map(xs, AsUser)) == Stats(|xs|, 0, 0)
  {
    TallyOfKind<U, I, F>(Map(xs, AsUser));
  }

  lemma ItemsHold<U(!new), I(!new), F(!new)>(cs: Codecs<U, I, F>, r: seq<byte>, after: Meaning<U, I, F>)
    requires after == AfterSection(cs, ReadSection(cs.item, r).end, r) && MeansRest(cs, ReadSection(cs.item, r).end, after)
    ensures MeansRecords(MeaningFrom(cs, ITEM_STREAM, r), Records(cs, ITEM_STREAM, r))
  {
    var s := ReadSection(cs.item, r);
    ItemMeaning(cs, r, s, after);
    ItemBatches<U, I, F>(s.records);
    SectionHolds(cs, cs.item, WrapItems, AsItem, r, after, MeaningFrom(cs, ITEM_STREAM, r));
  }

  lemma ItemBatches<U(!new), I(!new), F(!new)>(xs: seq<I>)
    ensures Wraps<I, U, I, F>(WrapItems, AsItem) && Tally<U, I, F>(Map(xs, AsItem)) == Stats(0, |xs|, 0)
  {
    TallyOfKind<U, I, F>(Map(xs, AsItem));
  }

  lemma FeedbackHolds<U(!new), I(!new), F(!new)>(cs: Codecs<U, I, F>, r: seq<byte>, after: Meaning<U, I, F>)
    requires after == AfterSection(cs, ReadSection(cs.feedback, r).end, r) && MeansRest(cs, ReadSection(cs.feedback, r).end, after)
    ensures MeansRecords(MeaningFrom(cs, FEEDBACK_STREAM, r), Records(cs, FEEDBACK_STREAM, r))
  {
    var s := ReadSection(cs.feedback, r);
    FeedbackMeaning(cs, r, s, after);
    FeedbackBatches<U, I, F>(s.records);
    SectionHolds(cs, cs.feedback, WrapFeedback, AsFeedback, r, after, MeaningFrom(cs, FEEDBACK_STREAM, r));
  }

  lemma FeedbackBatches<U(!new), I(!new), F(!new)>(xs: seq<F>)
    ensures Wraps<F, U, I, F>(WrapFeedback, AsFeedback) && Tally<U, I, F>(Map(xs, AsFeedback)) == Stats(0, 0, |xs|)
  {
    TallyOfKind<U, I, F>(Map(xs, AsFeedback));
  }

  /** The same for a whole stream and a database that may hold something before. */
  lemma InsertsOfStream<U(!new), I(!new), F(!new)>(cs: Codecs<U, I, F>, r: seq<byte>, log: seq<Insert<U, I, F>>)
    ensures MeansRecords(MeaningOf(cs, r), RecordsOf(cs, r))
    ensures MeaningOf(cs, r).complete ==> Contents(log + MeaningOf(cs, r).inserts) == Contents(log) + RecordsOf(cs, r)
  {
    var head := ReadInt(8, r);
    if head.Some? {
      InsertsAreRecords(cs, head.value.0, head.value.1);
    }
    ContentsConcat(log, MeaningOf(cs, r).inserts);
  }

  lemma FullInsertsHold<U(!new), I(!new), F(!new)>(users: seq<U>, items: seq<I>, feedback: seq<F>)
    ensures Sized<U, I, F>(FullInserts(users, items, feedback))
    ensures Contents<U, I, F>(FullInserts(users, items, feedback))
            == Map(users, AsUser) + (Map(items, AsItem) + Map(feedback, AsFeedback))
  {
    var u: seq<Insert<U, I, F>> := Map(Batches(users, true), WrapUsers);
    var i: seq<Insert<U, I, F>> := Map(Batches(items, true), WrapItems);
    var f: seq<Insert<U, I, F>> := Map(Batches(feedback, true), WrapFeedback);
    UserBatches<U, I, F>(users);
    ItemBatches<U, I, F>(items);
    FeedbackBatches<U, I, F>(feedback);
    BatchesHold<U, U, I, F>(users, true, WrapUsers, AsUser);
    BatchesHold<I, U, I, F>(items, true, WrapItems, AsItem);
    BatchesHold<F, U, I, F>(feedback, true, WrapFeedback, AsFeedback);
    assert f + [] == f;
    ContentsConcat(i, f);
    ContentsConcat(u, i + f);
  }

  /**
   The restore handler. Whatever the bytes, it ends, and the database holds the batches of their
   meaning, in order, up to the first refused call; it succeeds exactly when the stream is complete
   and no call was refused, and then the database has been given the records of the stream, in order.
   */
  method RestoreRecords<U(!new), I(!new), F(!new)>(cs: Codecs<U, I, F>, r: seq<byte>, db: DataClient<U, I, F>)
    returns (ok: bool, stats: Stats)
    modifies db
    ensures ok <==> MeaningOf(cs, r).complete && Accepts(db.failAt, |old(db.log)|, |MeaningOf(cs, r).inserts|)
    ensures db.log == old(db.log) + Taken(db.failAt, |old(db.log)|, MeaningOf(cs, r).inserts)
    ensures ok ==> Contents(db.log) == Contents(old(db.log)) + RecordsOf(cs, r)
    ensures ok ==> stats == MeaningOf(cs, r).stats == Tally(RecordsOf(cs, r))
    ensures Sized(old(db.log)) ==> Sized(db.log)
  {
    InsertsOfStream(cs, r, db.log);
    ok, stats := Restore(cs, r, db);
  }

  /** Dump, then restore into a database that takes everything: the same records, in order. */
  method DumpThenRestore<U(!new), I(!new), F(!new)>(cs: Codecs<U, I, F>, users: seq<seq<U>>, items: seq<seq<I>>, feedback: seq<seq<F>>,
                                  trailing: seq<byte>) returns (ok: bool, stats: Stats, log: seq<Insert<U, I, F>>)
    requires Faithful(cs.user, Flatten(users)) && Faithful(cs.item, Flatten(items)) && Faithful(cs.feedback, Flatten(feedback))
    requires NoEmptyRecord(cs.user, Flatten(users)) && NoEmptyRecord(cs.item, Flatten(items))
             && NoEmptyRecord(cs.feedback, Flatten(feedback))
    ensures ok && stats == Stats(|Flatten(users)|, |Flatten(items)|, |Flatten(feedback)|)
    ensures log == FullInserts(Flatten(users), Flatten(items), Flatten(feedback)) && Sized(log)
    ensures Contents(log) == Map(Flatten(users), AsUser) + (Map(Flatten(items), AsItem) + Map(Flatten(feedback), AsFeedback))
  {
    var w, dumped := Dump(cs, users, items, feedback);
    RoundTrip(cs, Flatten(users), Flatten(items), Flatten(feedback), trailing);
    var db := new DataClient<U, I, F>(None);
    ok, stats := RestoreRecords(cs, w + trailing, db);
    log := db.log;
    FullInsertsHold<U, I, F>(Flatten(users), Flatten(items), Flatten(feedback));
  }
}
