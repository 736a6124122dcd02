/** Honest uncertainty: what the modern HTTP facade says about a request it could not finish
    (stdio_http_facade.py, _ModernProxy and the error path of do_POST). */
module OutcomeReport {
  import opened Common

  /** One line for the proxy's pipe. */
  datatype Job = Job(length: nat, application: bool, cancellation: bool)

  /** What `lock` guards, and the event that ends the writer. */
  datatype Gate = Gate(closing: bool, stopped: bool, applicationStarted: bool)

  // ---------------------------------------------------------------- the locked regions

  datatype Admission = Gone | Refused | Admitted

  /** The writer's last look at a job before its first byte. */
  function Look(gate: Gate, job: Job, late: bool): Admission {
    if gate.stopped then Gone else if !job.cancellation && (gate.closing || late) then Refused else Admitted
  }

  function Flagged(gate: Gate, job: Job): Gate {
    gate.(applicationStarted := gate.applicationStarted || job.application)
  }

  class ModernProxy {
    var closing: bool
    var stopped: bool
    var applicationStarted: bool

    function View(): Gate
      reads this
    {
      Gate(closing, stopped, applicationStarted)
    }

    constructor ()
      ensures View() == Gate(false, false, false)
    {
      closing, stopped, applicationStarted := false, false, false;
    }

    method AdmitJob(job: Job, late: bool) returns (admission: Admission)
      modifies this`applicationStarted
      ensures admission == Look(old(View()), job, late)
      ensures View() == if admission.Admitted? then Flagged(old(View()), job) else old(View())
    {
      if stopped {
        return Gone;
      }
      if !job.cancellation && (closing || late) {
        return Refused;
      }
      if job.application {
        applicationStarted := true;
      }
      return Admitted;
    }

    method BeginClose()
      modifies this`closing
      ensures View() == old(View()).(closing := true)
    {
      closing := true;
    }
  }

  // ---------------------------------------------------------------- the threads

  /** `Admitting` is inside the locked region, past its checks and before the flag; `Pushing` is past the look at the
      stop event and before the bytes are written. */
  datatype Writer =
    | Waiting
    | Holding(job: Job)
    | Admitting(job: Job)
    | Writing(job: Job, offset: nat)
    | Pushing(job: Job, offset: nat)
    | Over

  /** The handler of the request; `Closing` while it runs `close`, which another thread may run too. */
  datatype Handler = Exchanging | Failing | Closing | Reported(outcomeUnknown: bool)

  datatype State = State(gate: Gate, outbound: seq<Job>, writer: Writer, handler: Handler, businessBytes: nat)

  const INITIAL := State(Gate(false, false, false), [], Waiting, Exchanging, 0)

  datatype Move =
    | Send(job: Job)
    | TakeJob
    | LookAtHeld(late: bool)
    | Flag
    | CheckStopped
    | Push(count: nat)
    | PushFails
    | Fail
    | CloseByHandler
    | CloseByServer
    | SendCancellation(length: nat)
    | Stop
    | Report

  /** The closing event is set under the lock, the stop event is not; the handler returns from `close` once the stop
      event is set, and reads the flag without the lock. */
  function Next(s: State, move: Move): Option<State> {
    match move
    case Send(job) => if s.handler.Exchanging? && s.outbound == [] then Some(s.(outbound := [job])) else None
    case TakeJob =>
      if s.writer.Waiting? && !s.gate.stopped && s.outbound != [] then
        Some(s.(writer := Holding(s.outbound[0]), outbound := s.outbound[1..]))
      else None
    case LookAtHeld(late) =>
      if !s.writer.Holding? then None
      else (
        match Look(s.gate, s.writer.job, late)
        case Gone => Some(s.(writer := Over))
        case Refused => Some(s.(writer := Waiting))
        case Admitted => Some(s.(writer := Admitting(s.writer.job))))
    case Flag =>
      if s.writer.Admitting? then Some(s.(gate := Flagged(s.gate, s.writer.job), writer := Writing(s.writer.job, 0))) else None
    case CheckStopped =>
      if !s.writer.Writing? then None
      else if s.writer.offset >= s.writer.job.length || s.gate.stopped then Some(s.(writer := Waiting))
      else Some(s.(writer := Pushing(s.writer.job, s.writer.offset)))
    case Push(count) =>
      if s.writer.Pushing? && 0 < count && s.writer.offset + count <= s.writer.job.length then
        Some(s.(writer := Writing(s.writer.job, s.writer.offset + count),
                businessBytes := s.businessBytes + if s.writer.job.application then count else 0))
      else None
    case PushFails => if s.writer.Pushing? then Some(s.(writer := Over)) else None
    case Fail => if s.handler.Exchanging? then Some(s.(handler := Failing)) else None
    case CloseByHandler =>
      if s.handler.Failing? && !s.writer.Admitting? then Some(s.(handler := Closing, gate := s.gate.(closing := true))) else None
    case CloseByServer => if s.writer.Admitting? then None else Some(s.(gate := s.gate.(closing := true)))
    case SendCancellation(length) =>
      if s.gate.closing && s.outbound == [] then Some(s.(outbound := [Job(length, false, true)])) else None
    case Stop => if s.gate.closing then Some(s.(gate := s.gate.(stopped := true))) else None
    case Report =>
      if s.handler.Closing? && s.gate.stopped then Some(s.(handler := Reported(s.gate.applicationStarted))) else None
  }

  /** The state after `moves`, if each was possible. */
  function Run(moves: seq<Move>): Option<State> {
    if moves == [] then Some(INITIAL)
    else
      var earlier := Run(moves[..|moves| - 1]);
      if earlier.None? then None else Next(earlier.value, moves[|moves| - 1])
  }

  // ---------------------------------------------------------------- what a report is worth

  ghost predicate Inv(s: State) {
    && ((s.writer.Writing? || s.writer.Pushing?) && s.writer.job.application ==> s.gate.applicationStarted)
    && (s.businessBytes > 0 ==> s.gate.applicationStarted)
    && (s.handler.Reported? ==> s.gate.stopped)
    && (s.handler == Reported(false) ==> s.businessBytes == 0 && !(s.writer.Pushing? && s.writer.job.application))
  }

  lemma NextKeepsInv(s: State, move: Move)
    requires Inv(s) && Next(s, move).Some?
    ensures Inv(Next(s, move).value)
  {
  }

  lemma {:induction false} RunKeepsInv(moves: seq<Move>)
    requires Run(moves).Some?
    ensures Inv(Run(moves).value)
  {
    if moves != [] {
      RunKeepsInv(moves[..|moves| - 1]);
      NextKeepsInv(Run(moves[..|moves| - 1]).value, moves[|moves| - 1]);
    }
  }

  lemma ReportStands(s: State, move: Move)
    requires s.handler.Reported? && Next(s, move).Some?
    ensures Next(s, move).value.handler == s.handler
  {
  }

  /** An error that says the outcome is known means that no byte of the business request was written, and that none
      will be, whatever the method of the request and whatever the writer and any other closer still do. */
  lemma {:induction false} KnownOutcomeMeansNothingWritten(before: seq<Move>, after: seq<Move>)
    requires Run(before + after).Some? && Run(before).Some?
    requires Run(before).value.handler == Reported(false)
    ensures Run(before + after).value.businessBytes == 0 && Run(before + after).value.handler == Reported(false)
  {
    RunKeepsInv(before + after);
    if after == [] {
      assert before + after == before;
    } else {
      var shorter := after[..|after| - 1];
      assert (before + after)[..|before + after| - 1] == before + shorter;
      KnownOutcomeMeansNothingWritten(before, shorter);
      ReportStands(Run(before + shorter).value, after[|after| - 1]);
      assert (before + after)[|before + after| - 1] == after[|after| - 1];
    }
  }

  /** A request the writer holds can still be written, and the flag be set, unless the writer is stopped or the gate is
      closed to the request: a closed gate lets a request through whose method is that of a cancellation. */
  lemma HeldCanBeWritten(before: seq<Move>)
    requires Run(before).Some? && Run(before).value.writer.Holding? && !Run(before).value.gate.stopped
    requires var s := Run(before).value; s.writer.job.application && s.writer.job.length > 0 && (s.writer.job.cancellation || !s.gate.closing)
    ensures var after := [LookAtHeld(false), Flag, CheckStopped, Push(1)];
            Run(before + after).Some? && Run(before + after).value.businessBytes > 0
  {
    RunThree(before, LookAtHeld(false), Flag, CheckStopped);
    var all := before + [LookAtHeld(false), Flag, CheckStopped, Push(1)];
    assert all[..|all| - 1] == before + [LookAtHeld(false), Flag, CheckStopped];
  }

  /** Looking at the flag before closing would not do: the flag can still be down when the error path begins, and the
      request be written after. Nor would closing without stopping. */
  lemma FlagBeforeStoppingIsNotEnough(closing: bool) returns (before: seq<Move>, after: seq<Move>)
    ensures Run(before).Some? && Run(before).value.gate == Gate(closing, false, false) && Run(before).value.businessBytes == 0
    ensures if closing then Run(before).value.handler.Closing? else Run(before).value.handler.Failing?
    ensures Run(before + after).Some? && Run(before + after).value.businessBytes > 0
  {
    var job := Job(5, true, true);
    var failing := [Send(job), TakeJob, Fail];
    assert [job][1..] == [];
    RunThree([], Send(job), TakeJob, Fail);
    assert [] + failing == failing && Run([]) == Some(INITIAL);
    assert Run(failing) == Some(State(Gate(false, false, false), [], Holding(job), Failing, 0));
    before := if closing then failing + [CloseByHandler] else failing;
    assert (failing + [CloseByHandler])[..3] == failing;
    after := [LookAtHeld(false), Flag, CheckStopped, Push(1)];
    HeldCanBeWritten(before);
  }

  lemma RunThree(before: seq<Move>, a: Move, b: Move, c: Move)
    requires Run(before).Some?
    ensures Run(before + [a, b, c]) == match Next(Run(before).value, a)
                                       case None => None
                                       case Some(s) => match Next(s, b)
                                                       case None => None
                                                       case Some(t) => Next(t, c)
  {
    var n, all := |before|, before + [a, b, c];
    assert all[..n + 2][..n + 1] == all[..n + 1] && all[..n + 1][..n] == before;
    assert all[..|all| - 1] == all[..n + 2];
    assert Run(all[..n + 1]) == Next(Run(before).value, a);
  }
}
