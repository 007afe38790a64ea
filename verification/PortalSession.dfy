/** The session of one automation portal: its lifecycle, and the observation revision that decides
    whether a reference captured earlier may still be used. */
module PortalSession {
  import opened Wrappers

  datatype State = Disconnected | Connecting | Connected | Closing | Closed

  /** The frame and the accessibility tree of an observation play no part in the protocol. */
  datatype Observation = Observation(revision: nat, payload: string)

  datatype SessionError =
    | Unavailable(state: State)
    | InvalidTransition(state: State, action: string)
    | StaleObservation(expected: nat, found: nat)

  datatype Session = Session(state: State, revision: nat, latest: Option<Observation>)

  class PortalSession {
    const generation: nat
    var state: State
    var observationRevision: nat
    var latestObservation: Option<Observation>

    function View(): Session
      reads this
    {
      Session(state, observationRevision, latestObservation)
    }

    constructor (generation: nat)
      ensures this.generation == generation && View() == Initial()
    {
      this.generation := generation;
      state, observationRevision, latestObservation := Disconnected, 0, None;
    }

    method BeginConnect() returns (result: Result<(), SessionError>)
      modifies this
      ensures View() == Step(old(View()), Op.BeginConnect)
      ensures View() == old(View()).(state := if result.Ok? then Connecting else old(state))
      ensures result == if old(state) == Disconnected then Ok(())
                        else Err(InvalidTransition(old(state), "connect"))
    {
      if state != Disconnected {
        return Err(InvalidTransition(state, "connect"));
      }
      state := Connecting;
      return Ok(());
    }

    method FinishConnecting() returns (result: Result<(), SessionError>)
      modifies this
      ensures View() == Step(old(View()), Op.FinishConnecting)
      ensures View() == old(View()).(state := if result.Ok? then Connected else old(state))
      ensures result == if old(state) == Connecting then Ok(())
                        else Err(InvalidTransition(old(state), "finish connecting"))
    {
      if state != Connecting {
        return Err(InvalidTransition(state, "finish connecting"));
      }
      state := Connected;
      return Ok(());
    }

    method Observe() returns (result: Result<nat, SessionError>)
      modifies this
      ensures View() == Step(old(View()), Op.Observe)
      ensures if old(state) != Connected then View() == old(View())
              else state == Connected && latestObservation == None
                   && observationRevision == (old(observationRevision) + 1) % 0x1_0000_0000_0000_0000
      ensures result == if old(state) == Connected then Ok(observationRevision) else Err(Unavailable(old(state)))
    {
      if state != Connected {
        return Err(Unavailable(state));
      }
      observationRevision := WrappingIncrement(observationRevision);
      latestObservation := None;
      return Ok(observationRevision);
    }

    method RecordObservation(observation: Observation) returns (result: Result<(), SessionError>)
      modifies this
      ensures View() == Step(old(View()), Op.Record(observation))
      ensures result == if old(state) != Connected then Err(Unavailable(old(state)))
                        else if observation.revision != old(observationRevision)
                        then Err(StaleObservation(old(observationRevision), observation.revision)) else Ok(())
      ensures state == old(state) && observationRevision == old(observationRevision)
      ensures latestObservation == if result.Ok? then Some(observation) else old(latestObservation)
    {
      if state != Connected {
        return Err(Unavailable(state));
      }
      if observation.revision != observationRevision {
        return Err(StaleObservation(observationRevision, observation.revision));
      }
      latestObservation := Some(observation);
      return Ok(());
    }

    method Disconnect()
      modifies this
      ensures View() == Step(old(View()), Op.Disconnect)
      ensures state == Disconnected && latestObservation == None
      ensures observationRevision == (old(observationRevision) + 1) % 0x1_0000_0000_0000_0000
    {
      state := Disconnected;
      latestObservation := None;
      observationRevision := WrappingIncrement(observationRevision);
    }

    method AcceptsRevision(revision: nat) returns (result: Result<(), SessionError>)
      ensures result == Accepts(View(), revision)
      ensures result == if state != Connected then Err(Unavailable(state))
                        else if revision != observationRevision
                        then Err(StaleObservation(observationRevision, revision)) else Ok(())
    {
      if state != Connected {
        return Err(Unavailable(state));
      }
      if revision != observationRevision {
        return Err(StaleObservation(observationRevision, revision));
      }
      return Ok(());
    }

    method BeginClose() returns (result: Result<(), SessionError>)
      modifies this
      ensures View() == Step(old(View()), Op.BeginClose)
      ensures View() == old(View()).(state := if result.Ok? then Closing else old(state))
      ensures result == if old(state) == Closed || old(state) == Disconnected
                        then Err(InvalidTransition(old(state), "close")) else Ok(())
    {
      if state == Closed || state == Disconnected {
        return Err(InvalidTransition(state, "close"));
      }
      state := Closing;
      return Ok(());
    }

    method FinishClosing()
      modifies this
      ensures View() == Step(old(View()), Op.FinishClosing)
      ensures View() == old(View()).(state := Closed)
    {
      state := Closed;
    }
  }

  // ----- Transitions on values -----

  datatype Op =
    | BeginConnect
    | FinishConnecting
    | Observe
    | Record(observation: Observation)
    | Disconnect
    | BeginClose
    | FinishClosing

  function Initial(): Session {
    Session(Disconnected, 0, None)
  }

  function Accepts(s: Session, revision: nat): Result<(), SessionError> {
    if s.state != Connected then Err(Unavailable(s.state))
    else if revision != s.revision then Err(StaleObservation(s.revision, revision))
    else Ok(())
  }

  function Step(s: Session, op: Op): Session {
    match op
    case BeginConnect => if s.state == Disconnected then s.(state := Connecting) else s
    case FinishConnecting => if s.state == Connecting then s.(state := Connected) else s
    case Observe =>
      if s.state == Connected then s.(revision := WrappingIncrement(s.revision), latest := None) else s
    case Record(observation) =>
      if Accepts(s, observation.revision).Ok? then s.(latest := Some(observation)) else s
    case Disconnect => Session(Disconnected, WrappingIncrement(s.revision), None)
    case BeginClose => if s.state == Closed || s.state == Disconnected then s else s.(state := Closing)
    case FinishClosing => s.(state := Closed)
  }

  /** The session after a run of operations. */
  function Run(s: Session, ops: seq<Op>): Session {
    if ops == [] then s else Step(Run(s, ops[..|ops| - 1]), ops[|ops| - 1])
  }

  /** How often a run moves the revision on. */
  function Advances(s: Session, ops: seq<Op>): nat {
    if ops == [] then 0
    else
      var last := ops[|ops| - 1];
      Advances(s, ops[..|ops| - 1])
      + (if last == Op.Disconnect || (last == Op.Observe && Run(s, ops[..|ops| - 1]).state == Connected)
         then 1 else 0)
  }

  /** The operations that end the use of an observation: a new one, or leaving the connection. */
  predicate Retires(op: Op) {
    op == Op.Observe || op == Op.Disconnect || op == Op.BeginClose || op == Op.FinishClosing
  }

  // ----- Properties of every run -----

  /** A stored observation always carries the current revision, and the revision fits 64 bits. */
  lemma {:induction false} StoredObservationIsCurrent(ops: seq<Op>)
    ensures var s := Run(Initial(), ops);
      s.revision <= U64_MAX && (s.latest.Some? ==> s.latest.value.revision == s.revision)
  {
    if ops != [] {
      StoredObservationIsCurrent(ops[..|ops| - 1]);
    }
  }

  /** The operation records an observation of the current revision while connected. */
  predicate Stores(s: Session, op: Op) {
    op.Record? && s.state == Connected && op.observation.revision == s.revision
  }

  /** The operation makes what is stored out of date. */
  predicate Drops(s: Session, op: Op) {
    op.Disconnect? || (op.Observe? && s.state == Connected)
  }

  /** The operation number i of the run stored its observation, and none after it stored another or dropped it. */
  predicate IsLastStored(s: Session, ops: seq<Op>, i: nat) {
    && i < |ops| && Stores(Run(s, ops[..i]), ops[i])
    && (forall j :: i < j < |ops| ==> !Stores(Run(s, ops[..j]), ops[j]) && !Drops(Run(s, ops[..j]), ops[j]))
  }

  /** Adding an operation that neither stores nor drops keeps the last one that stored. */
  lemma LastStoredStays(s: Session, ops: seq<Op>, i: nat)
    requires ops != [] && i < |ops| - 1
    requires !Stores(Run(s, ops[..|ops| - 1]), ops[|ops| - 1]) && !Drops(Run(s, ops[..|ops| - 1]), ops[|ops| - 1])
    ensures IsLastStored(s, ops, i) <==> IsLastStored(s, ops[..|ops| - 1], i)
  {
    assert forall j :: i <= j < |ops| - 1 ==> ops[..|ops| - 1][..j] == ops[..j] && ops[..|ops| - 1][j] == ops[j];
  }

  /** An operation that stores is the last one that did, and after one that drops there is none. */
  lemma StoringIsLast(s: Session, ops: seq<Op>)
    requires ops != []
    requires Stores(Run(s, ops[..|ops| - 1]), ops[|ops| - 1]) || Drops(Run(s, ops[..|ops| - 1]), ops[|ops| - 1])
    ensures forall i: nat :: IsLastStored(s, ops, i)
              <==> i == |ops| - 1 && Stores(Run(s, ops[..|ops| - 1]), ops[|ops| - 1])
  {
  }

  /** Some operation of the run was the last to store, and stored this. */
  ghost predicate WasLastStored(s: Session, ops: seq<Op>, observation: Observation) {
    exists i: nat :: IsLastStored(s, ops, i) && ops[i] == Op.Record(observation)
  }

  lemma WasLastStoredStays(s: Session, ops: seq<Op>, observation: Observation)
    requires ops != []
    requires !Stores(Run(s, ops[..|ops| - 1]), ops[|ops| - 1]) && !Drops(Run(s, ops[..|ops| - 1]), ops[|ops| - 1])
    ensures WasLastStored(s, ops, observation) <==> WasLastStored(s, ops[..|ops| - 1], observation)
  {
    var last := |ops| - 1;
    if i: nat :| IsLastStored(s, ops, i) && ops[i] == Op.Record(observation) {
      LastStoredStays(s, ops, i);
      assert ops[..last][i] == ops[i];
    }
    if i: nat :| IsLastStored(s, ops[..last], i) && ops[..last][i] == Op.Record(observation) {
      LastStoredStays(s, ops, i);
      assert ops[..last][i] == ops[i];
    }
  }

  /** What is stored after any run is the last observation recorded while connected at its revision, unless a new
      observation or a disconnection came after it. */
  lemma {:induction false} StoredIsLastRecorded(ops: seq<Op>, observation: Observation)
    ensures Run(Initial(), ops).latest == Some(observation) <==> WasLastStored(Initial(), ops, observation)
  {
    if ops != [] {
      var last, s := |ops| - 1, Run(Initial(), ops[..|ops| - 1]);
      StoredIsLastRecorded(ops[..last], observation);
      if Stores(s, ops[last]) || Drops(s, ops[last]) {
        StoringIsLast(Initial(), ops);
        assert IsLastStored(Initial(), ops, last) <==> Stores(s, ops[last]);
      } else {
        WasLastStoredStays(Initial(), ops, observation);
      }
    }
  }

  lemma IncrementWraps(n: nat)
    ensures WrappingIncrement(n % (U64_MAX + 1)) == (n + 1) % (U64_MAX + 1)
  {
    var width := U64_MAX + 1;
    var q, r := n / width, n % width;
    assert n + 1 == q * width + (r + 1);
  }

  lemma {:induction false} RevisionCountsAdvances(s: Session, ops: seq<Op>)
    requires s.revision <= U64_MAX
    ensures Run(s, ops).revision == (s.revision + Advances(s, ops)) % (U64_MAX + 1)
  {
    if ops != [] {
      RevisionCountsAdvances(s, ops[..|ops| - 1]);
      IncrementWraps(s.revision + Advances(s, ops[..|ops| - 1]));
    }
  }

  /** Precisely when a revision is accepted later: the session is connected and the revision has
      wrapped around a whole number of times since. */
  lemma AcceptedIffWrapped(s: Session, ops: seq<Op>)
    requires s.revision <= U64_MAX
    ensures Accepts(Run(s, ops), s.revision).Ok?
       <==> Run(s, ops).state == Connected && Advances(s, ops) % (U64_MAX + 1) == 0
  {
    RevisionCountsAdvances(s, ops);
    var width, n := U64_MAX + 1, Advances(s, ops);
    var q, r := n / width, n % width;
    assert s.revision + n == (s.revision + r) + q * width;
    assert (s.revision + n) % width == if s.revision + r < width then s.revision + r else s.revision + r - width;
  }

  /** Without a retiring operation a connected session stays as connected and as current as it was. */
  lemma {:induction false} StaysCurrent(s: Session, ops: seq<Op>)
    requires s.state == Connected
    requires forall op <- ops :: !Retires(op)
    ensures Run(s, ops).state == Connected && Advances(s, ops) == 0
  {
    if ops != [] {
      assert ops[|ops| - 1] in ops;
      StaysCurrent(s, ops[..|ops| - 1]);
    }
  }

  /** Once retired, a session is not both connected and unadvanced again. */
  lemma {:induction false} RetiredStaysRetired(s: Session, ops: seq<Op>, i: nat)
    requires s.state == Connected
    requires i < |ops| && Retires(ops[i])
    ensures Advances(s, ops) > 0 || Run(s, ops).state == Closing || Run(s, ops).state == Closed
  {
    var last := |ops| - 1;
    if j: nat :| j < last && Retires(ops[j]) {
      RetiredStaysRetired(s, ops[..last], j);
    } else {
      StaysCurrent(s, ops[..last]);
    }
  }

  /** A revision handed out by `Observe` is accepted after a further run exactly when that run held no
      new observation, disconnection or closing. The run may move the revision on fewer than 2^64 times. */
  lemma AcceptedIffNothingIntervened(before: Session, ops: seq<Op>)
    requires before.state == Connected && before.revision <= U64_MAX
    requires Advances(Step(before, Op.Observe), ops) <= U64_MAX
    ensures var observed := Step(before, Op.Observe);
      Accepts(Run(observed, ops), observed.revision).Ok? <==> forall op <- ops :: !Retires(op)
  {
    var observed := Step(before, Op.Observe);
    AcceptedIffWrapped(observed, ops);
    if i: nat :| i < |ops| && Retires(ops[i]) {
      RetiredStaysRetired(observed, ops, i);
    } else {
      StaysCurrent(observed, ops);
    }
  }
}
