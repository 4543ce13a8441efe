/**
 * The PROXY protocol listener: an accept loop, bounded header parsers, Accept
 * callers and Close, as a step system over every interleaving.
 */
module ProxyListener {

  const PARSERS: nat := 128

  /** The accept loop between two of its blocking points. */
  datatype Loop = NotStarted | Accepting | AwaitingSlot(connection: nat) | Failing | Ended

  /** A prepare goroutine; Releasing has let go of its connection and still holds its slot. */
  datatype Phase = Authorizing | Reading | Offering | Releasing

  datatype Closing = Open | DoneClosed | SourceClosed

  datatype State = State(
    closing: Closing,
    loop: Loop,
    prepares: map<nat, Phase>,
    callers: nat,           // Accept calls waiting in their select
    issued: nat,            // the source has returned connections 0 .. issued - 1
    delivered: seq<nat>,
    discarded: seq<nat>
  )

  datatype Step =
    | CallAccept
    | AcceptClosed
    | SourceReturns
    | SourceFails
    | DeliverError
    | DropError
    | TakeSlot
    | LoopAbandons
    | Reject(c: nat)
    | Trust(c: nat)
    | HeaderBad(c: nat)
    | HeaderGood(c: nat)
    | Deliver(c: nat)
    | Drop(c: nat)
    | Release(c: nat)
    | CloseDone
    | CloseSource

  const Initial: State := State(Open, NotStarted, map[], 0, 0, [], [])

  predicate InPhase(s: State, c: nat, phase: Phase) { c in s.prepares && s.prepares[c] == phase }

  predicate Enabled(s: State, step: Step) {
    match step
    case CallAccept => true
    case AcceptClosed => s.callers > 0 && !s.closing.Open?
    case SourceReturns => s.loop.Accepting? && !s.closing.SourceClosed?
    case SourceFails => s.loop.Accepting?
    case DeliverError => s.loop.Failing? && s.callers > 0
    case DropError => s.loop.Failing? && !s.closing.Open?
    case TakeSlot => s.loop.AwaitingSlot? && |s.prepares| < PARSERS
    case LoopAbandons => s.loop.AwaitingSlot? && !s.closing.Open?
    case Reject(c) => InPhase(s, c, Authorizing)
    case Trust(c) => InPhase(s, c, Authorizing)
    case HeaderBad(c) => InPhase(s, c, Reading)
    case HeaderGood(c) => InPhase(s, c, Reading)
    case Deliver(c) => InPhase(s, c, Offering) && s.callers > 0
    case Drop(c) => InPhase(s, c, Offering) && !s.closing.Open?
    case Release(c) => InPhase(s, c, Releasing)
    case CloseDone => s.closing.Open?
    case CloseSource => s.closing.DoneClosed?
  }

  function Discard(s: State, c: nat): State {
    s.(prepares := s.prepares[c := Releasing], discarded := s.discarded + [c])
  }

  function Apply(s: State, step: Step): State
    requires Enabled(s, step)
  {
    match step
    case CallAccept => s.(callers := s.callers + 1, loop := if s.loop.NotStarted? then Accepting else s.loop)
    case AcceptClosed => s.(callers := s.callers - 1)
    case SourceReturns => s.(loop := AwaitingSlot(s.issued), issued := s.issued + 1)
    case SourceFails => s.(loop := Failing)
    case DeliverError => s.(loop := Ended, callers := s.callers - 1)
    case DropError => s.(loop := Ended)
    case TakeSlot => s.(loop := Accepting, prepares := s.prepares[s.loop.connection := Authorizing])
    case LoopAbandons => s.(loop := Ended, discarded := s.discarded + [s.loop.connection])
    case Reject(c) => Discard(s, c)
    case Trust(c) => s.(prepares := s.prepares[c := Reading])
    case HeaderBad(c) => Discard(s, c)
    case HeaderGood(c) => s.(prepares := s.prepares[c := Offering])
    case Deliver(c) => s.(prepares := s.prepares[c := Releasing], delivered := s.delivered + [c],
                          callers := s.callers - 1)
    case Drop(c) => Discard(s, c)
    case Release(c) => s.(prepares := s.prepares - {c})
    case CloseDone => s.(closing := DoneClosed)
    case CloseSource => s.(closing := SourceClosed)
  }

  // ----- runs -----

  /** The state after an interleaving, or None when some step of it was not enabled. */
  datatype Outcome = Reached(state: State) | Impossible

  function Run(s: State, steps: seq<Step>): Outcome
    decreases |steps|
  {
    if steps == [] then Reached(s)
    else if Enabled(s, steps[0]) then Run(Apply(s, steps[0]), steps[1..])
    else Impossible
  }

  // ----- where a connection is -----

  /** How many holders connection c has: the loop, its prepare, Accept results, closed connections. */
  function Places(s: State, c: nat): nat {
    (if s.loop == AwaitingSlot(c) then 1 else 0) +
    (if c in s.prepares && !s.prepares[c].Releasing? then 1 else 0) +
    multiset(s.delivered)[c] + multiset(s.discarded)[c]
  }

  ghost predicate Conserved(s: State) {
    && (forall c: nat :: Places(s, c) == if c < s.issued then 1 else 0)
    && (forall c :: c in s.prepares ==> c < s.issued)
    && (forall c :: s.loop == AwaitingSlot(c) ==> c !in s.prepares)
    && |s.prepares| <= PARSERS
  }

  lemma UpdateSize(m: map<nat, Phase>, c: nat, phase: Phase)
    ensures |m[c := phase]| == if c in m then |m| else |m| + 1
  {
    if c in m {
      assert m[c := phase].Keys == m.Keys;
      assert |m.Keys| == |m| && |m[c := phase].Keys| == |m[c := phase]|;
    } else {
      assert m[c := phase].Keys == m.Keys + {c};
      assert |m.Keys| == |m| && |m[c := phase].Keys| == |m[c := phase]|;
    }
  }

  lemma RemoveSize(m: map<nat, Phase>, c: nat)
    requires c in m
    ensures |m - {c}| == |m| - 1
  {
    assert (m - {c}).Keys == m.Keys - {c};
    assert |m.Keys| == |m| && |(m - {c}).Keys| == |m - {c}|;
  }

  lemma StepConserves(s: State, step: Step)
    requires Conserved(s) && Enabled(s, step)
    ensures Conserved(Apply(s, step))
  {
    var s' := Apply(s, step);
    match step {
      case TakeSlot =>
        assert Places(s, s.loop.connection) == if s.loop.connection < s.issued then 1 else 0;
        UpdateSize(s.prepares, s.loop.connection, Authorizing);
      case Reject(c) => UpdateSize(s.prepares, c, Releasing);
      case Trust(c) => UpdateSize(s.prepares, c, Reading);
      case HeaderBad(c) => UpdateSize(s.prepares, c, Releasing);
      case HeaderGood(c) => UpdateSize(s.prepares, c, Offering);
      case Deliver(c) => UpdateSize(s.prepares, c, Releasing);
      case Drop(c) => UpdateSize(s.prepares, c, Releasing);
      case Release(c) => RemoveSize(s.prepares, c);
      case _ =>
    }
    forall c: nat ensures Places(s', c) == if c < s'.issued then 1 else 0 {
      assert Places(s, c) == if c < s.issued then 1 else 0;
    }
  }

  lemma {:induction false} RunConservesFrom(s: State, steps: seq<Step>)
    requires Conserved(s)
    ensures Run(s, steps).Reached? ==> Conserved(Run(s, steps).state)
    decreases |steps|
  {
    if steps != [] && Enabled(s, steps[0]) {
      StepConserves(s, steps[0]);
      RunConservesFrom(Apply(s, steps[0]), steps[1..]);
    }
  }

  /**
   * In every interleaving each connection the source returned has exactly one
   * holder, no connection appears from nowhere, and at most 128 parsers run.
   */
  lemma EveryConnectionInOnePlace(steps: seq<Step>, c: nat)
    requires Run(Initial, steps).Reached?
    ensures var s := Run(Initial, steps).state;
            Places(s, c) == (if c < s.issued then 1 else 0) && |s.prepares| <= PARSERS
  {
    RunConservesFrom(Initial, steps);
  }

  // ----- what Accept may hand out -----

  ghost predicate Vetted(s: State, past: seq<Step>) {
    && (forall c :: c in s.prepares && (s.prepares[c].Reading? || s.prepares[c].Offering?) ==> Trust(c) in past)
    && (forall c :: c in s.prepares && s.prepares[c].Offering? ==> HeaderGood(c) in past)
    && (forall c :: c in s.delivered ==> Trust(c) in past && HeaderGood(c) in past)
  }

  lemma {:induction false} RunVets(s: State, past: seq<Step>, steps: seq<Step>)
    requires Vetted(s, past)
    ensures Run(s, steps).Reached? ==> Vetted(Run(s, steps).state, past + steps)
    decreases |steps|
  {
    if steps == [] {
      assert past + steps == past;
    } else if Enabled(s, steps[0]) {
      var past' := past + [steps[0]];
      assert Vetted(Apply(s, steps[0]), past') by {
        assert forall x :: x in past ==> x in past';
        assert steps[0] in past';
      }
      RunVets(Apply(s, steps[0]), past', steps[1..]);
      assert past' + steps[1..] == past + steps;
    }
  }

  /** Accept only returns connections that were authorized and whose PROXY header was read. */
  lemma DeliveredWasVetted(steps: seq<Step>, c: nat)
    requires Run(Initial, steps).Reached? && c in Run(Initial, steps).state.delivered
    ensures Trust(c) in steps && HeaderGood(c) in steps
  {
    RunVets(Initial, [], steps);
    assert [] + steps == steps;
  }

  // ----- shutdown -----

  function PhaseWork(phase: Phase): nat {
    match phase
    case Authorizing => 4
    case Reading => 3
    case Offering => 2
    case Releasing => 1
  }

  function LoopWork(loop: Loop): nat {
    match loop
    case NotStarted => 3
    case AwaitingSlot(_) => 8
    case Accepting => 2
    case Failing => 1
    case Ended => 0
  }

  /** Work left in the prepare goroutines, summed over connections below the bound. */
  function PrepareWork(prepares: map<nat, Phase>, bound: nat): nat {
    if bound == 0 then 0
    else PrepareWork(prepares, bound - 1) + if bound - 1 in prepares then PhaseWork(prepares[bound - 1]) else 0
  }

  function Work(s: State): nat { LoopWork(s.loop) + s.callers + PrepareWork(s.prepares, s.issued) }

  lemma {:induction false} PrepareWorkChanges(before: map<nat, Phase>, after: map<nat, Phase>, c: nat, bound: nat)
    requires forall d :: d != c ==> (d in before <==> d in after) && (d in before ==> before[d] == after[d])
    ensures PrepareWork(after, bound) + (if c < bound && c in before then PhaseWork(before[c]) else 0) ==
            PrepareWork(before, bound) + (if c < bound && c in after then PhaseWork(after[c]) else 0)
  {
    if bound > 0 { PrepareWorkChanges(before, after, c, bound - 1); }
  }

  /** Once the source is closed every step but a new Accept call uses up work. */
  lemma ClosedStepWorks(s: State, step: Step)
    requires Conserved(s) && s.closing.SourceClosed? && Enabled(s, step)
    ensures Apply(s, step).closing.SourceClosed?
    ensures if step.CallAccept? then Work(Apply(s, step)) <= Work(s) + 1 else Work(Apply(s, step)) < Work(s)
  {
    var s' := Apply(s, step);
    match step
    case TakeSlot =>
      assert Places(s, s.loop.connection) == if s.loop.connection < s.issued then 1 else 0;
      PrepareWorkChanges(s.prepares, s'.prepares, s.loop.connection, s.issued);
    case Reject(c) => PrepareWorkChanges(s.prepares, s'.prepares, c, s.issued);
    case Trust(c) => PrepareWorkChanges(s.prepares, s'.prepares, c, s.issued);
    case HeaderBad(c) => PrepareWorkChanges(s.prepares, s'.prepares, c, s.issued);
    case HeaderGood(c) => PrepareWorkChanges(s.prepares, s'.prepares, c, s.issued);
    case Deliver(c) => PrepareWorkChanges(s.prepares, s'.prepares, c, s.issued);
    case Drop(c) => PrepareWorkChanges(s.prepares, s'.prepares, c, s.issued);
    case Release(c) => PrepareWorkChanges(s.prepares, s'.prepares, c, s.issued);
    case _ =>
  }

  function AcceptCalls(steps: seq<Step>): nat {
    if steps == [] then 0 else (if steps[0].CallAccept? then 1 else 0) + AcceptCalls(steps[1..])
  }

  /** After Close no run goes on for ever: its length is bounded by the work left and the new Accept calls. */
  lemma {:induction false} ClosedRunEnds(s: State, steps: seq<Step>)
    requires Conserved(s) && s.closing.SourceClosed? && Run(s, steps).Reached?
    ensures |steps| <= Work(s) + 2 * AcceptCalls(steps)
    ensures Run(s, steps).state.closing.SourceClosed?
    decreases |steps|
  {
    if steps != [] {
      StepConserves(s, steps[0]);
      ClosedStepWorks(s, steps[0]);
      ClosedRunEnds(Apply(s, steps[0]), steps[1..]);
    }
  }

  /** Nothing can happen except a new Accept call. */
  ghost predicate Quiescent(s: State) { forall step :: Enabled(s, step) ==> step.CallAccept? }

  /**
   * A run that has closed the listener and cannot go on holds no connection:
   * each one the source returned was delivered once or closed once.
   */
  lemma ClosedMaximalRunHoldsNothing(steps: seq<Step>, c: nat)
    requires Run(Initial, steps).Reached?
    requires Run(Initial, steps).state.closing.SourceClosed? && Quiescent(Run(Initial, steps).state)
    ensures var s := Run(Initial, steps).state;
            s.prepares == map[] && s.callers == 0 && (s.loop.Ended? || s.loop.NotStarted?) &&
            multiset(s.delivered)[c] + multiset(s.discarded)[c] == if c < s.issued then 1 else 0
  {
    RunConservesFrom(Initial, steps);
    var s := Run(Initial, steps).state;
    assert !Enabled(s, AcceptClosed) && !Enabled(s, SourceFails) && !Enabled(s, DropError) && !Enabled(s, LoopAbandons);
    assert s.prepares == map[] by {
      if d :| d in s.prepares {
        var step := match s.prepares[d]
                    case Authorizing => Reject(d)
                    case Reading => HeaderBad(d)
                    case Offering => Drop(d)
                    case Releasing => Release(d);
        assert Enabled(s, step);
        assert false;
      }
    }
    assert Places(s, c) == if c < s.issued then 1 else 0;
  }
}
