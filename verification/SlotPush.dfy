/**
 Concurrent pushes into an item-to-item recommender. A push appends an empty slot under the lock,
 adds its vector to the index without it and gets the vector's number back, then fills that slot
 under the lock again. The item list and the index thus grow in different orders.
 */
module SlotPush {
  import opened Seqs

  /** Where a push of an item is; j is the number the index gave to its vector. */
  datatype Push = Started | Appended | Indexed(j: nat) | Done(j: nat)

  /** Items are identified with their pushes. `vectors[j]` is the push whose vector has number j. */
  datatype State = State(slots: seq<Option<nat>>, vectors: seq<nat>, pushes: map<nat, Push>)

  const INIT := State([], [], map[])

  datatype Step = Start(p: nat) | Append(p: nat) | IndexAdd(p: nat) | Fill(p: nat)

  /** A fill is enabled whenever the push is there; that its slot exists is a theorem. */
  predicate Enabled(s: State, step: Step) {
    match step
    case Start(p) => p !in s.pushes
    case Append(p) => p in s.pushes && s.pushes[p].Started?
    case IndexAdd(p) => p in s.pushes && s.pushes[p].Appended?
    case Fill(p) => p in s.pushes && s.pushes[p].Indexed?
  }

  /** The slot access of a fill; out of bounds it would panic. */
  predicate InBounds(s: State, step: Step) {
    step.Fill? ==> step.p in s.pushes && s.pushes[step.p].Indexed? && s.pushes[step.p].j < |s.slots|
  }

  function Apply(s: State, step: Step): State
    requires Enabled(s, step) && InBounds(s, step)
  {
    match step
    case Start(p) => s.(pushes := s.pushes[p := Started])
    case Append(p) => s.(slots := s.slots + [None], pushes := s.pushes[p := Appended])
    case IndexAdd(p) => s.(vectors := s.vectors + [p], pushes := s.pushes[p := Indexed(|s.vectors|)])
    case Fill(p) => s.(slots := s.slots[s.pushes[p].j := Some(p)], pushes := s.pushes[p := Done(s.pushes[p].j)])
  }

  /** The pushes that have appended their slot. */
  function Holders(s: State): set<nat> {
    set p | p in s.pushes && !s.pushes[p].Started?
  }

  /** The pushes that have a vector. */
  function Indexers(s: State): set<nat> {
    set p | p in s.pushes && (s.pushes[p].Indexed? || s.pushes[p].Done?)
  }

  predicate HasVector(s: State, p: nat) {
    p in s.pushes && (s.pushes[p].Indexed? || s.pushes[p].Done?)
  }

  /** Pushes with a vector and vector numbers correspond one to one. */
  ghost predicate Numbered(s: State) {
    && (forall p :: HasVector(s, p) ==> s.pushes[p].j < |s.vectors| && s.vectors[s.pushes[p].j] == p)
    && (forall j :: 0 <= j < |s.vectors| ==> HasVector(s, s.vectors[j]) && s.pushes[s.vectors[j]].j == j)
  }

  ghost predicate Counted(s: State) {
    |s.slots| == |Holders(s)| && |s.vectors| == |Indexers(s)| <= |s.slots|
  }

  ghost predicate Filled(s: State)
    requires Numbered(s)
  {
    forall j :: 0 <= j < |s.slots| ==>
      s.slots[j] == if j < |s.vectors| && s.pushes[s.vectors[j]].Done? then Some(s.vectors[j]) else None
  }

  ghost predicate Inv(s: State) {
    Counted(s) && Numbered(s) && Filled(s)
  }

  lemma InvBounds(s: State, step: Step)
    requires Inv(s) && Enabled(s, step)
    ensures InBounds(s, step)
    ensures step.Fill? ==> s.slots[s.pushes[step.p].j] == None
  {
    if step.Fill? {
      assert HasVector(s, step.p);
    }
  }

  lemma CountedStep(s: State, step: Step)
    requires Counted(s) && Enabled(s, step) && InBounds(s, step)
    ensures Counted(Apply(s, step))
  {
    var t := Apply(s, step);
    HoldersStep(s, step);
    IndexersStep(s, step);
    SubsetSize(Indexers(t), Holders(t));
  }

  lemma HoldersStep(s: State, step: Step)
    requires Enabled(s, step) && InBounds(s, step)
    ensures Holders(Apply(s, step)) == if step.Append? then Holders(s) + {step.p} else Holders(s)
    ensures step.Append? ==> step.p !in Holders(s)
  {
  }

  lemma IndexersStep(s: State, step: Step)
    requires Enabled(s, step) && InBounds(s, step)
    ensures Indexers(Apply(s, step)) == if step.IndexAdd? then Indexers(s) + {step.p} else Indexers(s)
    ensures step.IndexAdd? ==> step.p !in Indexers(s)
  {
  }

  lemma InvStep(s: State, step: Step)
    requires Inv(s) && Enabled(s, step) && InBounds(s, step)
    ensures Inv(Apply(s, step))
  {
    CountedStep(s, step);
    assert HasVector(s, step.p) <==> step.Fill?;
  }

  /** A run never leaves the slots: each step is enabled, and fills are in bounds. */
  predicate Legal(s: State, steps: seq<Step>)
    decreases |steps|
  {
    steps == [] || (Enabled(s, steps[0]) && (InBounds(s, steps[0]) ==> Legal(Apply(s, steps[0]), steps[1..])))
  }

  predicate Safe(s: State, steps: seq<Step>)
    requires Legal(s, steps)
    decreases |steps|
  {
    steps == [] || (InBounds(s, steps[0]) && Safe(Apply(s, steps[0]), steps[1..]))
  }

  function Exec(s: State, steps: seq<Step>): State
    requires Legal(s, steps) && Safe(s, steps)
    decreases |steps|
  {
    if steps == [] then s else Exec(Apply(s, steps[0]), steps[1..])
  }

  lemma {:induction false} InvRun(s: State, steps: seq<Step>)
    requires Inv(s) && Legal(s, steps)
    ensures Safe(s, steps) && Inv(Exec(s, steps))
    decreases |steps|
  {
    if steps != [] {
      InvBounds(s, steps[0]);
      InvStep(s, steps[0]);
      InvRun(Apply(s, steps[0]), steps[1..]);
    }
  }

  /** In every interleaving each fill hits an existing, still empty slot, so a slot is written once. */
  lemma FillsAreSafe(steps: seq<Step>, p: nat)
    requires Legal(INIT, steps)
    ensures Safe(INIT, steps)
    ensures var s := Exec(INIT, steps);
            p in s.pushes && s.pushes[p].Indexed? ==> s.pushes[p].j < |s.slots| && s.slots[s.pushes[p].j] == None
  {
    InvRun(INIT, steps);
    var s := Exec(INIT, steps);
    if p in s.pushes && s.pushes[p].Indexed? {
      InvBounds(s, Fill(p));
    }
  }

  /** When all pushes are done, slot j holds the item whose vector has number j, and no slot is empty. */
  lemma AllDone(steps: seq<Step>)
    requires Legal(INIT, steps)
    ensures Safe(INIT, steps)
    ensures var s := Exec(INIT, steps);
            (forall p :: p in s.pushes ==> s.pushes[p].Done?) ==>
              |s.slots| == |s.vectors| == |s.pushes| && forall j :: 0 <= j < |s.slots| ==> s.slots[j] == Some(s.vectors[j])
  {
    InvRun(INIT, steps);
    var s := Exec(INIT, steps);
    if forall p :: p in s.pushes ==> s.pushes[p].Done? {
      assert Holders(s) == s.pushes.Keys == Indexers(s);
      assert |s.pushes| == |s.pushes.Keys|;
    }
  }
}
