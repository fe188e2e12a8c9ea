/** What the state of the task loop records about the steps so far: each of its fields, read from the run alone. */
module WakeTrace {
  import opened WakeUp

  ghost predicate LastBegin(steps: seq<Step>, i: nat) {
    i < |steps| && steps[i].Begin? && forall k :: i < k < |steps| ==> !steps[k].Begin?
  }

  /** The latest run began at a step, after which some request cancelled. */
  ghost predicate CancelledSince(steps: seq<Step>) {
    exists i: nat, j: nat :: LastBegin(steps, i) && CancelAfter(steps, i, j)
  }

  predicate CancelAfter(steps: seq<Step>, i: nat, j: nat) {
    i < j < |steps| && steps[j].Cancel?
  }

  /** Something was sent and not received since. */
  ghost predicate Unreceived(steps: seq<Step>) {
    exists j: nat :: SentAt(steps, j) && forall k :: j < k < |steps| ==> !steps[k].Receive?
  }

  predicate SentAt(steps: seq<Step>, j: nat) {
    j < |steps| && (steps[j].Send? || steps[j].StartLoop?)
  }

  ghost predicate HasBegun(steps: seq<Step>) {
    exists i :: 0 <= i < |steps| && steps[i].Begin?
  }

  lemma {:induction false} ExecLast(s: State, steps: seq<Step>)
    requires steps != [] && Legal(s, steps)
    ensures var before := steps[..|steps| - 1];
            && Legal(s, before) && Enabled(Exec(s, before), steps[|steps| - 1])
            && Exec(s, steps) == Apply(Exec(s, before), steps[|steps| - 1])
    decreases |steps|
  {
    if |steps| > 1 {
      ExecLast(Apply(s, steps[0]), steps[1..]);
      assert steps[1..][..|steps| - 2] == steps[..|steps| - 1][1..];
    } else {
      assert steps[1..] == [] && steps[..0] == [];
    }
  }

  lemma BeginSnoc(before: seq<Step>, step: Step)
    ensures HasBegun(before + [step]) <==> HasBegun(before) || step.Begin?
    ensures forall i: nat :: LastBegin(before + [step], i) <==> if step.Begin? then i == |before| else LastBegin(before, i)
  {
    var steps := before + [step];
    assert steps[|before|] == step;
    forall i: nat
      ensures LastBegin(steps, i) <==> if step.Begin? then i == |before| else LastBegin(before, i)
    {
      assert forall k :: 0 <= k < |before| ==> steps[k] == before[k];
    }
    if i :| 0 <= i < |before| && before[i].Begin? {
      assert steps[i].Begin?;
    }
  }

  lemma CancelSnoc(before: seq<Step>, step: Step)
    ensures CancelledSince(before + [step])
            <==> if step.Begin? then false else if step.Cancel? && HasBegun(before) then true else CancelledSince(before)
  {
    var steps := before + [step];
    BeginSnoc(before, step);
    assert forall k :: 0 <= k < |before| ==> steps[k] == before[k];
    if CancelledSince(before) && !step.Begin? {
      var i: nat, j: nat :| LastBegin(before, i) && CancelAfter(before, i, j);
      assert LastBegin(steps, i) && CancelAfter(steps, i, j);
    }
    if step.Cancel? && HasBegun(before) {
      var i := FindLastBegin(before);
      assert LastBegin(steps, i) && CancelAfter(steps, i, |before|);
    }
    if CancelledSince(steps) && !step.Begin? {
      var i: nat, j: nat :| LastBegin(steps, i) && CancelAfter(steps, i, j);
      assert LastBegin(before, i) && before[i].Begin?;
      assert j < |before| ==> CancelAfter(before, i, j);
    }
  }

  lemma {:induction false} FindLastBegin(steps: seq<Step>) returns (i: nat)
    requires HasBegun(steps)
    ensures LastBegin(steps, i)
  {
    var n := |steps| - 1;
    if steps[n].Begin? {
      i := n;
    } else {
      var j :| 0 <= j < |steps| && steps[j].Begin?;
      assert steps[..n][j].Begin?;
      i := FindLastBegin(steps[..n]);
    }
  }

  lemma UnreceivedSnoc(before: seq<Step>, step: Step)
    ensures Unreceived(before + [step])
            <==> if step.Send? || step.StartLoop? then true else if step.Receive? then false else Unreceived(before)
  {
    var steps := before + [step];
    assert forall k :: 0 <= k < |before| ==> steps[k] == before[k];
    assert steps[|before|] == step;
    if step.Send? || step.StartLoop? {
      assert SentAt(steps, |before|);
    }
    if Unreceived(before) && !step.Receive? {
      var j: nat :| SentAt(before, j) && forall k :: j < k < |before| ==> !before[k].Receive?;
      assert SentAt(steps, j);
    }
    if Unreceived(steps) && !step.Send? && !step.StartLoop? {
      var j: nat :| SentAt(steps, j) && forall k :: j < k < |steps| ==> !steps[k].Receive?;
      assert SentAt(before, j);
    }
  }

  /**
   After any run the state is a summary of the run. The clock counts the steps; a run of the task has begun if there was a
   Begin, and it began at the last one; it is cancelled exactly if a request cancelled after that; the channel
   holds its element exactly if something was sent and not received since.
   */
  lemma {:induction false} StateIsTrace(steps: seq<Step>)
    requires Legal(INIT, steps)
    ensures var s := Exec(INIT, steps);
            && s.now == |steps| + 1
            && (s.begun <==> HasBegun(steps))
            && (forall i: nat :: LastBegin(steps, i) ==> s.startedAt == i + 1)
            && (s.cancelled <==> CancelledSince(steps))
            && (s.token <==> Unreceived(steps))
  {
    if steps != [] {
      var before, step := steps[..|steps| - 1], steps[|steps| - 1];
      ExecLast(INIT, steps);
      StateIsTrace(before);
      assert steps == before + [step];
      BeginSnoc(before, step);
      CancelSnoc(before, step);
      UnreceivedSnoc(before, step);
    }
  }

  /** A request is written and sent at its own steps of the run. */
  lemma {:induction false} RequestIsTrace(steps: seq<Step>, id: nat, j: nat)
    requires Legal(INIT, steps) && j < |steps|
    ensures var s := Exec(INIT, steps);
            && (steps[j] == Write(id) ==> id in s.requests && s.requests[id].writeAt == j + 1)
            && (steps[j] == Send(id) ==> id in s.requests && s.requests[id].Done? && s.requests[id].sentAt == j + 1)
  {
    ExecLast(INIT, steps);
    var before := steps[..|steps| - 1];
    StateIsTrace(before);
    if j < |before| {
      RequestIsTrace(before, id, j);
    }
  }
}
