/**
 Publishing trained models. A training step uploads a blob named by the current Unix second,
 points the in-memory metadata at it, saves the metadata and removes older blobs. Uploads, saves and
 removals may fail, an upload even without the trainer noticing, and the process may crash and reload
 the saved metadata; every such sequence of steps is a run.
 */
module Publication {

  datatype Kind = CF | CTR

  /** One value per kind of model. */
  datatype Pair<T> = Pair(cf: T, ctr: T) {
    function Get(k: Kind): T {
      if k == CF then cf else ctr
    }

    function Set(k: Kind, v: T): Pair<T> {
      if k == CF then this.(cf := v) else this.(ctr := v)
    }
  }

  datatype Blob = Partial | Complete(kind: Kind)

  datatype Phase =
    | Idle
    | Uploading(kind: Kind, id: int)
    | Uploaded(kind: Kind, id: int)
    | Published(kind: Kind)
    | Saved
    | Collecting(limit: int, todo: seq<int>)

  datatype State = State(
    blobs: map<int, Blob>,
    memory: Pair<int>,        // model ids in use, 0 for none
    saved: Pair<int>,         // model ids in the metadata store
    phase: Phase)

  const INIT := State(map[], Pair(0, 0), Pair(0, 0), Idle)

  datatype Step =
    | Create(k: Kind, id: int, visible: bool)  // the blob may be visible while it is being written
    | UploadFails
    | UploadLost                               // fails after the last write; the store only logs the error
    | UploadEnds
    | Publish
    | SaveEnds
    | SaveFails(stored: bool)                  // reports an error, with or without having stored the metadata
    | SkipCollect                              // statistics or listing failed
    | List(names: seq<int>)
    | Remove(ok: bool)
    | Crash

  function Min(a: int, b: int): int { if a <= b then a else b }

  predicate Enabled(s: State, step: Step) {
    match step
    case Create(_, id, _) => s.phase.Idle? && id > 0
    case UploadFails => s.phase.Uploading?
    case UploadLost => s.phase.Uploading?
    case UploadEnds => s.phase.Uploading?
    case Publish => s.phase.Uploaded?
    case SaveEnds => s.phase.Published?
    case SaveFails(_) => s.phase.Published?
    case SkipCollect => s.phase.Saved?
    case List(names) => s.phase.Saved? && (set n | n in names) == s.blobs.Keys
    case Remove(_) => s.phase.Collecting? && s.phase.todo != []
    case Crash => true
  }

  function Apply(s: State, step: Step): State
    requires Enabled(s, step)
  {
    match step
    case Create(k, id, visible) =>
      s.(phase := Uploading(k, id), blobs := if visible then s.blobs[id := Partial] else s.blobs)
    case UploadFails => s.(phase := Idle)
    case UploadLost => s.(phase := Uploaded(s.phase.kind, s.phase.id))
    case UploadEnds => s.(phase := Uploaded(s.phase.kind, s.phase.id), blobs := s.blobs[s.phase.id := Complete(s.phase.kind)])
    case Publish => s.(phase := Published(s.phase.kind), memory := s.memory.Set(s.phase.kind, s.phase.id))
    case SaveEnds =>
      s.(phase := Saved, saved := s.saved.Set(s.phase.kind, s.memory.Get(s.phase.kind)))
    case SaveFails(stored) =>
      s.(phase := Idle, saved := if stored then s.saved.Set(s.phase.kind, s.memory.Get(s.phase.kind)) else s.saved)
    case SkipCollect => s.(phase := Idle)
    case List(names) => Collect(s, Min(s.memory.cf, s.memory.ctr), names)
    case Remove(ok) =>
      var id := s.phase.todo[0];
      var t := Collect(s, s.phase.limit, s.phase.todo[1..]);
      if id < s.phase.limit && ok then t.(blobs := s.blobs - {id}) else t
    case Crash => s.(phase := Idle, memory := s.saved)
  }

  function Collect(s: State, limit: int, todo: seq<int>): State {
    s.(phase := if todo == [] then Idle else Collecting(limit, todo))
  }

  predicate Legal(s: State, steps: seq<Step>)
    decreases |steps|
  {
    steps == [] || (Enabled(s, steps[0]) && Legal(Apply(s, steps[0]), steps[1..]))
  }

  function Exec(s: State, steps: seq<Step>): State
    requires Legal(s, steps)
    decreases |steps|
  {
    if steps == [] then s else Exec(Apply(s, steps[0]), steps[1..])
  }

  /** The id is 0 or names a completely uploaded model of the right kind. */
  predicate Stored(s: State, k: Kind, id: int) {
    id == 0 || (id in s.blobs && s.blobs[id] == Complete(k))
  }

  /** Every model id in use or saved is good: whatever happens next, what it names is there. */
  predicate Good(s: State) {
    && Stored(s, CF, s.memory.cf) && Stored(s, CTR, s.memory.ctr)
    && Stored(s, CF, s.saved.cf) && Stored(s, CTR, s.saved.ctr)
  }

  /** A new model id that no metadata refers to: no two trainings in the same second. */
  predicate FreshId(s: State, id: int) {
    id !in {s.memory.cf, s.memory.ctr, s.saved.cf, s.saved.ctr}
  }

  /** No model that the metadata store refers to is older than both models in use. */
  predicate NoneStale(s: State) {
    && (s.saved.cf == 0 || Min(s.memory.cf, s.memory.ctr) <= s.saved.cf)
    && (s.saved.ctr == 0 || Min(s.memory.cf, s.memory.ctr) <= s.saved.ctr)
  }

  /**
   What can be looked up before a step: a training has a fresh id, the blob that is published is there,
   and a clean-up starts with nothing stale saved.
   */
  predicate Guarded(s: State, step: Step) {
    && (step.Create? ==> FreshId(s, step.id))
    && (step.Publish? && s.phase.Uploaded? ==> Stored(s, s.phase.kind, s.phase.id))
    && (step.List? ==> NoneStale(s))
  }

  predicate Careful(s: State, steps: seq<Step>)
    requires Legal(s, steps)
    decreases |steps|
  {
    steps == [] || (Guarded(s, steps[0]) && Careful(Apply(s, steps[0]), steps[1..]))
  }

  // ---------- careful runs are good ----------

  /** An upload does not touch the models in use or saved. */
  predicate UploadApart(s: State) {
    s.phase.Uploading? || s.phase.Uploaded? ==> s.phase.id > 0 && FreshId(s, s.phase.id)
  }

  /** A clean-up keeps the models in use and saved. */
  predicate CleanUpApart(s: State) {
    s.phase.Collecting? ==>
      && s.phase.limit <= s.memory.cf && s.phase.limit <= s.memory.ctr
      && (s.saved.cf == 0 || s.phase.limit <= s.saved.cf) && (s.saved.ctr == 0 || s.phase.limit <= s.saved.ctr)
  }

  predicate Inv(s: State) {
    Good(s) && UploadApart(s) && CleanUpApart(s)
  }

  lemma InvStep(s: State, step: Step)
    requires Inv(s) && Enabled(s, step) && Guarded(s, step)
    ensures Inv(Apply(s, step))
  {
    assert UploadApart(Apply(s, step));
    assert CleanUpApart(Apply(s, step));
  }

  lemma {:induction false} InvRun(s: State, steps: seq<Step>)
    requires Inv(s) && Legal(s, steps) && Careful(s, steps)
    ensures Inv(Exec(s, steps))
    decreases |steps|
  {
    if steps != [] {
      InvStep(s, steps[0]);
      InvRun(Apply(s, steps[0]), steps[1..]);
    }
  }

  /**
   Publication never dangles: after any run, with any failures and crashes, in which new ids are fresh,
   no lost upload is published and no clean-up starts while a saved model is older than both models in
   use, every model id in memory and every saved one names a complete blob of its kind.
   */
  lemma NeverDangles(steps: seq<Step>)
    requires Legal(INIT, steps) && Careful(INIT, steps)
    ensures Good(Exec(INIT, steps))
  {
    InvRun(INIT, steps);
  }

  // ---------- when no save and no upload is lost ----------

  /** The store knows the models in use, but for the one being saved, and what was uploaded is there. */
  predicate UpToDate(s: State) {
    && (s.phase != Published(CF) ==> s.saved.cf == s.memory.cf)
    && (s.phase != Published(CTR) ==> s.saved.ctr == s.memory.ctr)
    && (s.phase.Uploaded? ==> Stored(s, s.phase.kind, s.phase.id))
  }

  predicate FreshIds(s: State, steps: seq<Step>)
    requires Legal(s, steps)
    decreases |steps|
  {
    steps == [] || ((steps[0].Create? ==> FreshId(s, steps[0].id)) && FreshIds(Apply(s, steps[0]), steps[1..]))
  }

  /** If no save is lost and no upload is lost unnoticed, the other two guards hold by themselves, whatever else fails. */
  lemma {:induction false} NoFailedSave(s: State, steps: seq<Step>)
    requires UpToDate(s) && Legal(s, steps) && SaveFails(false) !in steps && UploadLost !in steps && FreshIds(s, steps)
    ensures Careful(s, steps)
    decreases |steps|
  {
    if steps != [] {
      assert steps[0] in steps;
      NoFailedSave(Apply(s, steps[0]), steps[1..]);
    }
  }

  lemma PersistedNeverDangles(steps: seq<Step>)
    requires Legal(INIT, steps) && SaveFails(false) !in steps && UploadLost !in steps && FreshIds(INIT, steps)
    ensures Good(Exec(INIT, steps))
  {
    NoFailedSave(INIT, steps);
    NeverDangles(steps);
  }

  // ---------- all three guards are exact ----------

  /** Whatever happens next, as long as later steps are careful, no model id dangles. */
  ghost predicate SafeFromNow(s: State) {
    forall more :: Legal(s, more) && Careful(s, more) ==> Good(Exec(s, more))
  }

  lemma InvIsSafe(s: State)
    requires Inv(s)
    ensures SafeFromNow(s)
  {
    forall more | Legal(s, more) && Careful(s, more)
      ensures Good(Exec(s, more))
    {
      InvRun(s, more);
    }
  }

  /** A clean-up that has this model on its list can remove it, and then a crash can happen. */
  lemma {:induction false} RemoveThenCrash(s: State, id: int) returns (steps: seq<Step>)
    requires s.phase.Collecting? && id in s.phase.todo && id < s.phase.limit
    ensures Legal(s, steps) && Careful(s, steps)
    ensures id !in Exec(s, steps).blobs && Exec(s, steps).memory == Exec(s, steps).saved == s.saved
    decreases |s.phase.todo|
  {
    var t := Apply(s, Remove(true));
    if s.phase.todo[0] == id {
      steps := [Remove(true), Crash];
      assert steps[1..] == [Crash] && steps[1..][1..] == [];
    } else {
      assert s.phase.todo == [s.phase.todo[0]] + s.phase.todo[1..];
      var rest := RemoveThenCrash(t, id);
      steps := [Remove(true)] + rest;
      assert steps[1..] == rest;
    }
  }

  /** A clean-up that starts with a stale saved model has a continuation after which the id in memory names nothing. */
  lemma StaleDangles(s: State, names: seq<int>, k: Kind) returns (more: seq<Step>)
    requires Inv(s) && Enabled(s, List(names))
    requires s.saved.Get(k) != 0 && s.saved.Get(k) < Min(s.memory.cf, s.memory.ctr)
    ensures var t := Apply(s, List(names));
            Legal(t, more) && Careful(t, more) && !Stored(Exec(t, more), k, Exec(t, more).memory.Get(k))
  {
    assert s.saved.Get(k) in (set n | n in names);
    more := RemoveThenCrash(Apply(s, List(names)), s.saved.Get(k));
  }

  /**
   The clean-up guard is exact: however a careful run got here, it can go on without ever dangling if
   and only if, when the clean-up lists the blobs, no saved model is older than both models in use.
   */
  lemma CleanUpExactly(run: seq<Step>, names: seq<int>)
    requires Legal(INIT, run) && Careful(INIT, run) && Enabled(Exec(INIT, run), List(names))
    ensures SafeFromNow(Apply(Exec(INIT, run), List(names))) <==> NoneStale(Exec(INIT, run))
  {
    InvRun(INIT, run);
    var s := Exec(INIT, run);
    if NoneStale(s) {
      InvStep(s, List(names));
      InvIsSafe(Apply(s, List(names)));
    } else {
      var k := if s.saved.cf != 0 && s.saved.cf < Min(s.memory.cf, s.memory.ctr) then CF else CTR;
      var more := StaleDangles(s, names, k);
    }
  }

  /**
   So is the guard on new ids: an upload whose blob is visible while it is written is safe from its
   first byte on if and only if no metadata refers to its id.
   */
  lemma FreshIdExactly(run: seq<Step>, k: Kind, id: int)
    requires Legal(INIT, run) && Careful(INIT, run) && Exec(INIT, run).phase.Idle? && id > 0
    ensures SafeFromNow(Apply(Exec(INIT, run), Create(k, id, true))) <==> FreshId(Exec(INIT, run), id)
  {
    InvRun(INIT, run);
    var s := Exec(INIT, run);
    var t := Apply(s, Create(k, id, true));
    if FreshId(s, id) {
      InvStep(s, Create(k, id, true));
      InvIsSafe(t);
    } else {
      assert Legal(t, []) && Careful(t, []) && !Good(Exec(t, []));
    }
  }

  /**
   And the guard on publishing: after an upload of which the trainer has heard no error, pointing the
   metadata at the blob is safe if and only if the blob is there.
   */
  lemma PublishExactly(run: seq<Step>)
    requires Legal(INIT, run) && Careful(INIT, run) && Exec(INIT, run).phase.Uploaded?
    ensures var s := Exec(INIT, run);
            SafeFromNow(Apply(s, Publish)) <==> Stored(s, s.phase.kind, s.phase.id)
  {
    InvRun(INIT, run);
    var s := Exec(INIT, run);
    var t := Apply(s, Publish);
    if Stored(s, s.phase.kind, s.phase.id) {
      InvStep(s, Publish);
      InvIsSafe(t);
    } else {
      assert Legal(t, []) && Careful(t, []) && !Good(Exec(t, []));
    }
  }

  lemma {:induction false} Extend(s: State, steps: seq<Step>, step: Step)
    requires Legal(s, steps) && FreshIds(s, steps) && Enabled(Exec(s, steps), step)
    requires step.Create? ==> FreshId(Exec(s, steps), step.id)
    ensures Legal(s, steps + [step]) && FreshIds(s, steps + [step])
    ensures Exec(s, steps + [step]) == Apply(Exec(s, steps), step)
    decreases |steps|
  {
    if steps == [] {
      assert [step][1..] == [];
    } else {
      assert (steps + [step])[1..] == steps[1..] + [step];
      Extend(Apply(s, steps[0]), steps[1..], step);
    }
  }

  /** Training of one kind up to the in-memory update, at the end of a run. */
  lemma ExtendByTraining(run: seq<Step>, k: Kind, id: int) returns (steps: seq<Step>)
    requires Legal(INIT, run) && FreshIds(INIT, run)
    requires Exec(INIT, run).phase.Idle? && id > 0 && FreshId(Exec(INIT, run), id)
    ensures Legal(INIT, steps) && FreshIds(INIT, steps)
    ensures var s := Exec(INIT, run);
            Exec(INIT, steps) == s.(phase := Published(k), blobs := s.blobs[id := Complete(k)], memory := s.memory.Set(k, id))
  {
    Extend(INIT, run, Create(k, id, true));
    steps := run + [Create(k, id, true)];
    Extend(INIT, steps, UploadEnds);
    steps := steps + [UploadEnds];
    Extend(INIT, steps, Publish);
    steps := steps + [Publish];
    assert Exec(INIT, run).blobs[id := Partial][id := Complete(k)] == Exec(INIT, run).blobs[id := Complete(k)];
  }

  /**
   A lost upload really happens. The very first training of either kind, in any second, on a store that
   shows unfinished blobs or one that does not: without a failed save and without a crash the model id in
   memory, and then the saved one, names no model.
   */
  lemma LostUploadDangles(k: Kind, id: int, visible: bool)
    requires id > 0
    ensures var steps := [Create(k, id, visible), UploadLost, Publish, SaveEnds];
            && Legal(INIT, steps) && FreshIds(INIT, steps)
            && Exec(INIT, steps).memory.Get(k) == Exec(INIT, steps).saved.Get(k) == id
            && !Stored(Exec(INIT, steps), k, id)
  {
    Extend(INIT, [], Create(k, id, visible));
    assert [] + [Create(k, id, visible)] == [Create(k, id, visible)];
    Extend(INIT, [Create(k, id, visible)], UploadLost);
    assert [Create(k, id, visible)] + [UploadLost] == [Create(k, id, visible), UploadLost];
    Extend(INIT, [Create(k, id, visible), UploadLost], Publish);
    assert [Create(k, id, visible), UploadLost] + [Publish] == [Create(k, id, visible), UploadLost, Publish];
    Extend(INIT, [Create(k, id, visible), UploadLost, Publish], SaveEnds);
    assert [Create(k, id, visible), UploadLost, Publish] + [SaveEnds] == [Create(k, id, visible), UploadLost, Publish, SaveEnds];
  }

  /**
   The failed save is really dangerous. Model 1 is published and saved; its successor 3 is published
   but not saved; the other kind publishes 4 and its clean-up removes 1, the only model the store
   knows. After a crash the id in memory names nothing.
   */
  lemma FailedSaveDangles() returns (steps: seq<Step>)
    ensures Legal(INIT, steps) && FreshIds(INIT, steps)
    ensures !Stored(Exec(INIT, steps), CF, Exec(INIT, steps).memory.cf)
  {
    steps := ExtendByTraining([], CF, 1);
    Extend(INIT, steps, SaveEnds);
    steps := steps + [SaveEnds];
    Extend(INIT, steps, SkipCollect);
    steps := ExtendByTraining(steps + [SkipCollect], CF, 3);
    Extend(INIT, steps, SaveFails(false));
    steps := ExtendByTraining(steps + [SaveFails(false)], CTR, 4);
    Extend(INIT, steps, SaveEnds);
    steps := steps + [SaveEnds];
    assert (set n | n in [1, 3, 4]) == Exec(INIT, steps).blobs.Keys;
    Extend(INIT, steps, List([1, 3, 4]));
    steps := steps + [List([1, 3, 4])];
    assert Exec(INIT, steps).phase == Collecting(3, [1, 3, 4]);
    Extend(INIT, steps, Remove(true));
    steps := steps + [Remove(true)];
    assert 1 !in Exec(INIT, steps).blobs;
    Extend(INIT, steps, Crash);
    steps := steps + [Crash];
  }

  // ---------- the ids in memory ----------

  predicate MemoryGood(s: State) {
    Stored(s, CF, s.memory.cf) && Stored(s, CTR, s.memory.ctr)
  }

  predicate NewInMemory(s: State, id: int) {
    id !in {s.memory.cf, s.memory.ctr}
  }

  /**
   What the ids in memory need, which is less: a new id differs from both, the blob that is published is
   there, and a restart reads ids of stored models. Lost saves and stale clean-ups do not matter to them,
   because a clean-up removes only what is older than both.
   */
  predicate MemoryGuarded(s: State, step: Step) {
    && (step.Create? ==> NewInMemory(s, step.id))
    && (step.Publish? && s.phase.Uploaded? ==> Stored(s, s.phase.kind, s.phase.id))
    && (step.Crash? ==> Stored(s, CF, s.saved.cf) && Stored(s, CTR, s.saved.ctr))
  }

  predicate MemoryCareful(s: State, steps: seq<Step>)
    requires Legal(s, steps)
    decreases |steps|
  {
    steps == [] || (MemoryGuarded(s, steps[0]) && MemoryCareful(Apply(s, steps[0]), steps[1..]))
  }

  predicate MemoryInv(s: State) {
    && MemoryGood(s)
    && (s.phase.Uploading? || s.phase.Uploaded? ==> s.phase.id > 0 && NewInMemory(s, s.phase.id))
    && (s.phase.Collecting? ==> s.phase.limit <= s.memory.cf && s.phase.limit <= s.memory.ctr)
  }

  lemma MemoryInvStep(s: State, step: Step)
    requires MemoryInv(s) && Enabled(s, step) && MemoryGuarded(s, step)
    ensures MemoryInv(Apply(s, step))
  {
  }

  lemma {:induction false} MemoryInvRun(s: State, steps: seq<Step>)
    requires MemoryInv(s) && Legal(s, steps) && MemoryCareful(s, steps)
    ensures MemoryInv(Exec(s, steps))
    decreases |steps|
  {
    if steps != [] {
      MemoryInvStep(s, steps[0]);
      MemoryInvRun(Apply(s, steps[0]), steps[1..]);
    }
  }

  /**
   After any run, with any lost saves and any clean-ups, in which new ids differ from those in memory, no
   lost upload is published and restarts read ids of stored models, both ids in memory name complete blobs
   of their kind.
   */
  lemma MemoryNeverDangles(steps: seq<Step>)
    requires Legal(INIT, steps) && MemoryCareful(INIT, steps)
    ensures MemoryGood(Exec(INIT, steps))
  {
    MemoryInvRun(INIT, steps);
  }

  /**
   These guards are exact: after any such run, a step (if it is a training, one whose blob is visible while it
   is written) leaves both ids in memory good if and only if it is guarded.
   */
  lemma MemoryStepExactly(run: seq<Step>, step: Step)
    requires Legal(INIT, run) && MemoryCareful(INIT, run) && Enabled(Exec(INIT, run), step)
    requires step.Create? ==> step.visible
    ensures MemoryGood(Apply(Exec(INIT, run), step)) <==> MemoryGuarded(Exec(INIT, run), step)
  {
    MemoryInvRun(INIT, run);
    if MemoryGuarded(Exec(INIT, run), step) {
      MemoryInvStep(Exec(INIT, run), step);
    }
  }

  predicate NewIds(s: State, steps: seq<Step>)
    requires Legal(s, steps)
    decreases |steps|
  {
    steps == [] || ((steps[0].Create? ==> NewInMemory(s, steps[0].id)) && NewIds(Apply(s, steps[0]), steps[1..]))
  }

  lemma {:induction false} NoRestart(s: State, steps: seq<Step>)
    requires Legal(s, steps) && Crash !in steps && UploadLost !in steps && NewIds(s, steps)
    requires s.phase.Uploaded? ==> Stored(s, s.phase.kind, s.phase.id)
    ensures MemoryCareful(s, steps)
    decreases |steps|
  {
    if steps != [] {
      assert steps[0] in steps;
      NoRestart(Apply(s, steps[0]), steps[1..]);
    }
  }

  /**
   The life of one process: whatever uploads fail noticeably and whatever saves and removals fail, as long as
   new ids differ from those in memory, both ids in memory name complete blobs of their kind.
   */
  lemma OneProcessNeverDangles(steps: seq<Step>)
    requires Legal(INIT, steps) && Crash !in steps && UploadLost !in steps && NewIds(INIT, steps)
    ensures MemoryGood(Exec(INIT, steps))
  {
    NoRestart(INIT, steps);
    MemoryNeverDangles(steps);
  }
}
