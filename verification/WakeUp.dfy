/**
 The task loop of the master and the requests that wake it. A request writes new configuration or
 data, cancels the context of the current run and sends on a channel of capacity one without
 blocking; the loop also wakes on a ticker. A panic in a run is recovered outside the loop, which ends
 it for good. Every interleaving of these steps is a run.
 */
module WakeUp {

  datatype Loop = NotStarted | Waiting | Woken | Running | Dead

  /** Where a request is; the times are those of its write and of its send. */
  datatype Request = Written(writeAt: nat) | Cancelled(writeAt: nat) | Done(writeAt: nat, sentAt: nat)

  datatype State = State(
    now: nat,                   // counts steps
    token: bool,                // the channel holds its one element
    loop: Loop,
    begun: bool,                // some run has set the cancel function
    startedAt: nat,             // when the latest run began
    cancelled: bool,            // the latest run's context was cancelled
    requests: map<nat, Request>)

  const INIT := State(1, false, NotStarted, false, 0, false, map[])

  datatype Step =
    | StartLoop | Tick | Receive | Begin | Finish | Panic
    | Write(id: nat) | Cancel(id: nat) | Send(id: nat)

  predicate Enabled(s: State, step: Step) {
    match step
    case StartLoop => s.loop == NotStarted
    case Tick => s.loop == Waiting
    case Receive => s.loop == Waiting && s.token
    case Begin => s.loop == Woken
    case Finish => s.loop == Running
    case Panic => s.loop == Running
    case Write(id) => id !in s.requests
    case Cancel(id) => id in s.requests && s.requests[id].Written?
    case Send(id) => id in s.requests && s.requests[id].Cancelled?
  }

  function Apply(s: State, step: Step): State
    requires Enabled(s, step)
  {
    var t := s.(now := s.now + 1);
    match step
    case StartLoop => t.(token := true, loop := Waiting)
    case Tick => t.(loop := Woken)
    case Receive => t.(loop := Woken, token := false)
    case Begin => t.(loop := Running, begun := true, startedAt := s.now, cancelled := false)
    case Finish => t.(loop := Waiting)
    case Panic => t.(loop := Dead)
    case Write(id) => t.(requests := s.requests[id := Written(s.now)])
    case Cancel(id) => t.(cancelled := s.begun, requests := s.requests[id := Cancelled(s.requests[id].writeAt)])
    case Send(id) => t.(token := true, requests := s.requests[id := Done(s.requests[id].writeAt, s.now)])
  }

  predicate Legal(s: State, steps: seq<Step>)
    decreases |steps|
  {
    steps == [] || (Enabled(s, steps[0]) && Legal(Apply(s, steps[0]), steps[1..]))
  }

  function Exec(s: State, steps: seq<Step>): State
    requires Legal(s, steps)
    decreases |steps|
  {
    if steps == [] then s else Exec(Apply(s, steps[0]), steps[1..])
  }

  /** A run is on its way that will begin after everything done so far. */
  predicate RunAhead(s: State) {
    s.token || s.loop == Woken || s.loop == NotStarted
  }

  /** The request has been answered, or a run that will answer it is on its way. */
  predicate Served(s: State, r: Request) {
    r.Done? ==> RunAhead(s) || (s.begun && r.writeAt < r.sentAt < s.startedAt)
  }

  ghost predicate Inv(s: State) {
    && (s.begun ==> s.startedAt < s.now)
    && (forall id :: id in s.requests ==> s.requests[id].writeAt < s.now && Served(s, s.requests[id]))
    && (forall id :: id in s.requests && s.requests[id].Done? ==> s.requests[id].writeAt < s.requests[id].sentAt < s.now)
    && (s.cancelled ==> RunAhead(s) || exists id :: id in s.requests && s.requests[id].Cancelled?)
    && (s.begun || RunAhead(s))
  }

  lemma InvStep(s: State, step: Step)
    requires Inv(s) && Enabled(s, step)
    ensures Inv(Apply(s, step))
  {
    var t := Apply(s, step);
    forall id | id in t.requests
      ensures t.requests[id].writeAt < t.now && Served(t, t.requests[id])
      ensures t.requests[id].Done? ==> t.requests[id].writeAt < t.requests[id].sentAt < t.now
    {
      if id in s.requests {
        assert Served(s, s.requests[id]);
      }
    }
    if t.cancelled && !RunAhead(t) {
      if step.Cancel? {
        assert t.requests[step.id].Cancelled?;
      } else {
        var id :| id in s.requests && s.requests[id].Cancelled?;
        assert t.requests[id].Cancelled?;
      }
    }
  }

  lemma {:induction false} InvRun(s: State, steps: seq<Step>)
    requires Inv(s) && Legal(s, steps)
    ensures Inv(Exec(s, steps))
    decreases |steps|
  {
    if steps != [] {
      InvStep(s, steps[0]);
      InvRun(Apply(s, steps[0]), steps[1..]);
    }
  }

  /**
   No lost wake-up: after any run, every completed request has a token pending, a loop that is about
   to begin a run, or a latest run that began after the request's write and even after its send, so
   the request's own cancellation cannot have hit it.
   */
  lemma NoLostWakeUp(steps: seq<Step>, id: nat)
    requires Legal(INIT, steps) && id in Exec(INIT, steps).requests && Exec(INIT, steps).requests[id].Done?
    ensures var s := Exec(INIT, steps);
            var r := s.requests[id];
            || s.token || s.loop == Woken || s.loop == NotStarted
            || (s.begun && r.writeAt < r.sentAt < s.startedAt)
  {
    InvRun(INIT, steps);
    assert Served(Exec(INIT, steps), Exec(INIT, steps).requests[id]);
  }

  /** Nothing is pending: the loop waits, the channel is empty, no request is under way. */
  predicate Quiet(s: State) {
    s.loop == Waiting && !s.token && forall id :: id in s.requests ==> s.requests[id].Done?
  }

  /**
   Once everything is quiet, the latest run began after the write of every request and no request
   cancelled it: the last word is always a full run over the final configuration and data.
   */
  lemma QuietMeansUpToDate(steps: seq<Step>)
    requires Legal(INIT, steps) && Quiet(Exec(INIT, steps))
    ensures var s := Exec(INIT, steps);
            s.begun && !s.cancelled && forall id :: id in s.requests ==> s.requests[id].writeAt < s.startedAt
  {
    InvRun(INIT, steps);
    var s := Exec(INIT, steps);
    forall id | id in s.requests
      ensures s.requests[id].writeAt < s.startedAt
    {
      assert Served(s, s.requests[id]);
    }
  }

  // ---------- who is answered ----------

  /** How many steps the loop still takes by itself. */
  function Pending(s: State): nat {
    if s.loop == NotStarted then 4
    else (if s.loop == Woken then 2 else if s.loop == Running then 1 else 0) + if s.token then 3 else 0
  }

  function LoopStep(s: State): Step
    requires s.loop != Dead
  {
    match s.loop
    case NotStarted => StartLoop
    case Waiting => Receive
    case Woken => Begin
    case Running => Finish
  }

  /** The steps the loop takes by itself until nothing is pending, when no run panics. */
  function Drain(s: State): seq<Step>
    requires s.loop != Dead
    decreases Pending(s)
  {
    if s.loop == Waiting && !s.token then [] else [LoopStep(s)] + Drain(Apply(s, LoopStep(s)))
  }

  /** A loop that is alive empties the channel and waits again by itself, in at most five steps. */
  lemma {:induction false} DrainsToQuiet(s: State)
    requires s.loop != Dead
    ensures |Drain(s)| == Pending(s) <= 5 && Legal(s, Drain(s))
    ensures var t := Exec(s, Drain(s));
            && t.loop == Waiting && !t.token && t.requests == s.requests
            && ((forall id :: id in s.requests ==> s.requests[id].Done?) ==> Quiet(t))
    decreases Pending(s)
  {
    if s.loop != Waiting || s.token {
      var next := Apply(s, LoopStep(s));
      DrainsToQuiet(next);
      assert Drain(s)[1..] == Drain(next);
    }
  }

  /** A run has begun after the request's write and after its own cancellation. */
  predicate Answered(s: State, id: nat) {
    && id in s.requests && s.requests[id].Done?
    && s.begun && s.requests[id].writeAt < s.requests[id].sentAt < s.startedAt
  }

  /** A dead loop stays dead and begins no run, and completed requests stay as they are. */
  lemma {:induction false} DeadForever(s: State, more: seq<Step>, id: nat)
    requires s.loop == Dead && Legal(s, more) && id in s.requests && s.requests[id].Done?
    ensures var t := Exec(s, more);
            t.loop == Dead && t.begun == s.begun && t.startedAt == s.startedAt && id in t.requests && t.requests[id] == s.requests[id]
    decreases |more|
  {
    if more != [] {
      DeadForever(Apply(s, more[0]), more[1..], id);
    }
  }

  /** Some continuation answers the request, or it is answered already. */
  ghost predicate CanBeAnswered(s: State, id: nat) {
    exists more :: Legal(s, more) && Answered(Exec(s, more), id)
  }

  lemma AnsweredBy(s: State, more: seq<Step>, id: nat)
    requires Legal(s, more) && Answered(Exec(s, more), id)
    ensures CanBeAnswered(s, id)
  {
  }

  /**
   Who is answered exactly: after any run, a completed request has been or can still be answered by a run
   that begins after it if and only if it has been answered already or the loop is alive.
   */
  lemma AnsweredExactly(run: seq<Step>, id: nat)
    requires Legal(INIT, run) && id in Exec(INIT, run).requests && Exec(INIT, run).requests[id].Done?
    ensures var s := Exec(INIT, run);
            CanBeAnswered(s, id) <==> Answered(s, id) || s.loop != Dead
  {
    var s := Exec(INIT, run);
    InvRun(INIT, run);
    if s.loop == Dead {
      if Answered(s, id) {
        AnsweredBy(s, [], id);
      } else {
        forall more | Legal(s, more)
          ensures !Answered(Exec(s, more), id)
        {
          DeadForever(s, more, id);
        }
      }
    } else {
      DrainsToQuiet(s);
      InvRun(s, Drain(s));
      assert Served(Exec(s, Drain(s)), Exec(s, Drain(s)).requests[id]);
      AnsweredBy(s, Drain(s), id);
    }
  }

  lemma {:induction false} ExecConcat(s: State, a: seq<Step>, b: seq<Step>)
    requires Legal(s, a) && Legal(Exec(s, a), b)
    ensures Legal(s, a + b) && Exec(s, a + b) == Exec(Exec(s, a), b)
    decreases |a|
  {
    if a == [] {
      assert a + b == b;
    } else {
      assert (a + b)[1..] == a[1..] + b;
      ExecConcat(Apply(s, a[0]), a[1..], b);
    }
  }

  lemma Three(s: State, a: Step, b: Step, c: Step)
    requires Enabled(s, a) && Enabled(Apply(s, a), b) && Enabled(Apply(Apply(s, a), b), c)
    ensures Legal(s, [a, b, c]) && Exec(s, [a, b, c]) == Apply(Apply(Apply(s, a), b), c)
  {
    assert [a, b, c][1..] == [b, c] && [b, c][1..] == [c] && [c][1..] == [];
    assert Exec(Apply(Apply(s, a), b), [c]) == Apply(Apply(Apply(s, a), b), c);
    assert Exec(Apply(s, a), [b, c]) == Exec(Apply(Apply(s, a), b), [c]);
  }

  /** For instance: a request is made during a run, which then panics. The request's token stays unread for good. */
  lemma PanicLosesRequest() returns (run: seq<Step>)
    ensures Legal(INIT, run) && 0 in Exec(INIT, run).requests && Exec(INIT, run).requests[0].Done?
    ensures forall more | Legal(Exec(INIT, run), more) :: !Answered(Exec(Exec(INIT, run), more), 0)
  {
    Three(INIT, StartLoop, Receive, Begin);
    var running := Exec(INIT, [StartLoop, Receive, Begin]);
    Three(running, Write(0), Cancel(0), Panic);
    var dead := Exec(running, [Write(0), Cancel(0), Panic]);
    ExecConcat(INIT, [StartLoop, Receive, Begin], [Write(0), Cancel(0), Panic]);
    assert [Send(0)][1..] == [];
    assert Legal(dead, [Send(0)]) && Exec(dead, [Send(0)]) == Apply(dead, Send(0));
    ExecConcat(INIT, [StartLoop, Receive, Begin] + [Write(0), Cancel(0), Panic], [Send(0)]);
    run := [StartLoop, Receive, Begin] + [Write(0), Cancel(0), Panic] + [Send(0)];
    var s := Exec(INIT, run);
    forall more | Legal(s, more)
      ensures !Answered(Exec(s, more), 0)
    {
      DeadForever(s, more, 0);
    }
  }
}
