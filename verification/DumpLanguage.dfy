/** Which byte streams a restore accepts: a grammar of frames, sections and the end mark. */
module DumpLanguage {
  import opened Seqs
  import opened Bytes
  import opened DumpRestore

  /** A frame around some bytes. */
  function FrameBytes(bytes: seq<byte>): seq<byte>
    requires Fits(8, |bytes|)
  {
    Encode(8, |bytes|) + bytes
  }

  /** These bytes are a record: they are there, their number fits the length field, and the decoder takes them. */
  predicate IsRecord<T>(c: Codec<T>, bytes: seq<byte>) {
    bytes != [] && Fits(8, |bytes|) && c.unmarshal(bytes).Some?
  }

  /** Exactly what is read as a record, and exactly what as a flag, in terms of the bytes. */
  lemma ReadDumpExactly<T>(c: Codec<T>, r: seq<byte>, f: Frame<T>)
    requires !f.Unreadable?
    ensures ReadDump(c, r) == f <==>
            match f
            case Flag(flag, rest) => flag <= 0 && Fits(8, flag) && r == Encode(8, flag) + rest
            case Record(x, rest) =>
              exists bytes :: IsRecord(c, bytes) && r == FrameBytes(bytes) + rest && c.unmarshal(bytes) == Some(x)
  {
    if |r| >= 8 {
      ReadIsWritten(8, r);
    }
    match f
    case Flag(flag, rest) =>
      if flag <= 0 && Fits(8, flag) && r == Encode(8, flag) + rest {
        ReadWrittenInt(8, flag, rest);
      }
    case Record(x, rest) =>
      if ReadDump(c, r) == f {
        var (size, after) := ReadInt(8, r).value;
        var bytes := after[..size];
        assert IsRecord(c, bytes) && after == bytes + rest;
        ConcatAssoc(Encode(8, size), bytes, rest);
      }
      forall bytes | IsRecord(c, bytes) && r == FrameBytes(bytes) + rest && c.unmarshal(bytes) == Some(x)
        ensures ReadDump(c, r) == f
      {
        ReadFrame(c, bytes, rest);
      }
  }

  lemma ReadFrame<T>(c: Codec<T>, bytes: seq<byte>, rest: seq<byte>)
    requires IsRecord(c, bytes)
    ensures ReadDump(c, FrameBytes(bytes) + rest) == Record(c.unmarshal(bytes).value, rest)
  {
    ConcatAssoc(Encode(8, |bytes|), bytes, rest);
    ReadWrittenInt(8, |bytes|, bytes + rest);
    assert (bytes + rest)[..|bytes|] == bytes && (bytes + rest)[|bytes|..] == rest;
  }

  /** A section as it is written: its flag and the bytes of its records. */
  datatype RawSection = RawSection(flag: int, frames: seq<seq<byte>>)

  ghost predicate Readables<T>(c: Codec<T>, frames: seq<seq<byte>>) {
    forall b :: b in frames ==> IsRecord(c, b)
  }

  /** A section of one of the three kinds, all of whose records are readable. */
  ghost predicate Proper<U, I, F>(cs: Codecs<U, I, F>, s: RawSection) {
    || (s.flag == -1 && Readables(cs.user, s.frames))
    || (s.flag == -2 && Readables(cs.item, s.frames))
    || (s.flag == -3 && Readables(cs.feedback, s.frames))
  }

  ghost predicate AllProper<U, I, F>(cs: Codecs<U, I, F>, sections: seq<RawSection>) {
    forall s :: s in sections ==> Proper(cs, s)
  }

  ghost function FramesBytes(frames: seq<seq<byte>>): seq<byte>
    requires forall b :: b in frames ==> Fits(8, |b|)
  {
    if frames == [] then [] else FrameBytes(frames[0]) + FramesBytes(frames[1..])
  }

  /** Any number of sections in any order, the end mark, and any bytes after it. */
  ghost function StreamBytes<U, I, F>(cs: Codecs<U, I, F>, sections: seq<RawSection>, trailing: seq<byte>): seq<byte>
    requires AllProper(cs, sections)
  {
    if sections == [] then Encode(8, 0) + trailing
    else
      assert Proper(cs, sections[0]);
      Encode(8, sections[0].flag) + (FramesBytes(sections[0].frames) + StreamBytes(cs, sections[1..], trailing))
  }

  lemma {:induction false} ReadFrames<T>(c: Codec<T>, frames: seq<seq<byte>>, flag: int, rest: seq<byte>)
    requires Readables(c, frames) && flag <= 0 && Fits(8, flag)
    ensures ReadSection(c, FramesBytes(frames) + (Encode(8, flag) + rest)).end == Some((flag, rest))
  {
    var behind := Encode(8, flag) + rest;
    if frames == [] {
      assert FramesBytes(frames) + behind == behind;
      ReadWrittenInt(8, flag, rest);
    } else {
      assert frames[0] in frames && forall b :: b in frames[1..] ==> b in frames;
      ConcatAssoc(FrameBytes(frames[0]), FramesBytes(frames[1..]), behind);
      ReadFrame(c, frames[0], FramesBytes(frames[1..]) + behind);
      ReadFrames(c, frames[1..], flag, rest);
    }
  }

  /** A section that ends was written as records and the next flag. */
  lemma {:induction false} FramesOf<T>(c: Codec<T>, r: seq<byte>) returns (frames: seq<seq<byte>>)
    requires ReadSection(c, r).end.Some?
    ensures Readables(c, frames)
    ensures var (flag, rest) := ReadSection(c, r).end.value;
            flag <= 0 && Fits(8, flag) && r == FramesBytes(frames) + (Encode(8, flag) + rest)
    decreases |r|
  {
    var f := ReadDump(c, r);
    ReadDumpExactly(c, r, f);
    match f
    case Flag(flag, rest) =>
      frames := [];
      assert r == FramesBytes(frames) + (Encode(8, flag) + rest);
    case Record(x, next) =>
      var bytes :| IsRecord(c, bytes) && r == FrameBytes(bytes) + next && c.unmarshal(bytes) == Some(x);
      var more := FramesOf(c, next);
      frames := [bytes] + more;
      var (flag, rest) := ReadSection(c, next).end.value;
      ConcatAssoc(FrameBytes(bytes), FramesBytes(more), Encode(8, flag) + rest);
  }

  /** A stream in this form is complete and leaves what follows the end mark. */
  lemma {:induction false} PrintedIsComplete<U, I, F>(cs: Codecs<U, I, F>, sections: seq<RawSection>, trailing: seq<byte>)
    requires AllProper(cs, sections)
    ensures var m := MeaningOf(cs, StreamBytes(cs, sections, trailing));
            m.complete && m.rest == trailing
  {
    if sections == [] {
      ReadWrittenInt(8, 0, trailing);
    } else {
      var s := sections[0];
      assert Proper(cs, s);
      var after := StreamBytes(cs, sections[1..], trailing);
      var body := FramesBytes(s.frames) + after;
      PrintedIsComplete(cs, sections[1..], trailing);
      ReadWrittenInt(8, s.flag, body);
      ReadIsWritten(8, after);
      var (next, rest) := ReadInt(8, after).value;
      assert next <= 0 by {
        FirstFlag(cs, sections[1..], trailing);
      }
      if s.flag == -1 {
        ReadFrames(cs.user, s.frames, next, rest);
      } else if s.flag == -2 {
        ReadFrames(cs.item, s.frames, next, rest);
      } else {
        ReadFrames(cs.feedback, s.frames, next, rest);
      }
      CompleteStep(cs, s.flag, body);
    }
  }

  lemma FirstFlag<U, I, F>(cs: Codecs<U, I, F>, sections: seq<RawSection>, trailing: seq<byte>)
    requires AllProper(cs, sections)
    ensures ReadInt(8, StreamBytes(cs, sections, trailing)).Some?
    ensures ReadInt(8, StreamBytes(cs, sections, trailing)).value.0 == if sections == [] then 0 else sections[0].flag
  {
    if sections == [] {
      ReadWrittenInt(8, 0, trailing);
    } else {
      assert Proper(cs, sections[0]);
      ReadWrittenInt(8, sections[0].flag, FramesBytes(sections[0].frames) + StreamBytes(cs, sections[1..], trailing));
    }
  }

  /** Every complete stream has this form. */
  lemma {:induction false} CompleteIsPrinted<U, I, F>(cs: Codecs<U, I, F>, r: seq<byte>) returns (sections: seq<RawSection>)
    requires MeaningOf(cs, r).complete
    ensures AllProper(cs, sections) && r == StreamBytes(cs, sections, MeaningOf(cs, r).rest)
    decreases |r|
  {
    ReadIsWritten(8, r);
    var (flag, body) := ReadInt(8, r).value;
    if flag == EOF {
      sections := [];
    } else {
      CompleteStep(cs, flag, body);
      var (next, rest) := SectionEnd(cs, flag, body).value;
      var frames: seq<seq<byte>>;
      if flag == USER_STREAM {
        frames := FramesOf(cs.user, body);
      } else if flag == ITEM_STREAM {
        frames := FramesOf(cs.item, body);
      } else {
        frames := FramesOf(cs.feedback, body);
      }
      ReadWrittenInt(8, next, rest);
      var more := CompleteIsPrinted(cs, Encode(8, next) + rest);
      sections := [RawSection(flag, frames)] + more;
      assert sections[1..] == more;
    }
  }

  /**
   The language of complete streams: any number of sections in any order, each made of records its decoder takes, then the
   end mark. A restore that no call is refused to succeeds on exactly these.
   */
  lemma CompleteExactly<U, I, F>(cs: Codecs<U, I, F>, r: seq<byte>)
    ensures MeaningOf(cs, r).complete
            <==> exists sections, trailing :: AllProper(cs, sections) && r == StreamBytes(cs, sections, trailing)
  {
    if MeaningOf(cs, r).complete {
      var sections := CompleteIsPrinted(cs, r);
    }
    forall sections, trailing | AllProper(cs, sections) && r == StreamBytes(cs, sections, trailing)
      ensures MeaningOf(cs, r).complete
    {
      PrintedIsComplete(cs, sections, trailing);
    }
  }
}
