/** Every run of Data Storage: one AL request at a time, commands in order, and
    each transfer ends in one outcome. */
module DataStorageSafety {
  import opened Bytes
  import opened DataStorage

  /** What Data Storage has told the device: a transfer in progress, or one whose
      end command has been sent. */
  datatype Session = Closed | Uploading | Downloading | Ended

  /** The machine, the AL request it waits for, and the session. */
  datatype System = System(d: Ds, pending: Option<Out>, session: Option<Session>)

  /** An answer of AL: how a read would be confirmed and how a write would be. */
  datatype Answer = Answer(reply: Reply, ok: bool)

  datatype Service = StartupReq | UploadReq | DeleteReq

  function EventOf(s: Service): Event {
    match s
    case StartupReq => Startup
    case UploadReq => Upload
    case DeleteReq => Delete
  }

  predicate IsRequest(o: Out) {
    o.ReadReq? || o.WriteReq? || o.Command?
  }

  predicate IsOutcome(o: Out) {
    o.DsReady? || o.DsFault?
  }

  /** AL requests among `outs`. */
  function Requests(outs: seq<Out>): seq<Out> {
    if outs == [] then [] else if IsRequest(outs[0]) then [outs[0]] + Requests(outs[1..]) else Requests(outs[1..])
  }

  function Outcomes(outs: seq<Out>): nat {
    if outs == [] then 0 else (if IsOutcome(outs[0]) then 1 else 0) + Outcomes(outs[1..])
  }

  /** The session after `o`, if the command protocol allows `o`: a transfer is
      started only outside of one, ended or broken only inside, and parameters are
      written only inside a download. */
  function Track(s: Session, o: Out): Option<Session> {
    match o
    case Command(c) =>
      if (c == UlStart || c == DlStart) && (s == Closed || s == Ended) then
        Some(if c == UlStart then Uploading else Downloading)
      else if (c == UlEnd && s == Uploading) || (c == DlEnd && s == Downloading) then Some(Ended)
      else if c == Break && s != Closed then Some(Closed)
      else None
    case WriteReq(_, _, _) => if s == Downloading then Some(s) else None
    case _ => Some(s)
  }

  function TrackAll(s: Option<Session>, outs: seq<Out>): Option<Session>
    decreases |outs|
  {
    if outs == [] || s.None? then s else TrackAll(Track(s.value, outs[0]), outs[1..])
  }

  function Busy(s: System): bool {
    s.pending.Some?
  }

  /** The pending request and the session fit the state. */
  predicate Consistent(s: System) {
    && Sound(s.d) && s.session.Some?
    && match s.pending
       case None => s.d.state in {CheckActivationState, Waiting, Off} && s.session.value in {Closed, Ended}
       case Some(r) => Expected(s.d, r, s.session.value)
  }

  predicate Expected(d: Ds, r: Out, session: Session) {
    var outside := session == Closed || session == Ended;
    match d.state
    case CheckIdentity => r == ReadReq(DsIndex, SubSize) && outside
    case CheckMemSize => r == ReadReq(DsIndex, SubState) && outside
    case CheckUpload =>
      (r == ReadReq(DsIndex, SubChecksum) && outside) || (r == Command(UlStart) && session == Uploading)
    case CheckValidity => r == Command(UlStart) && session == Uploading
    case ReadParameter => r == ReadReq(d.current.index, d.current.subindex) && session == Uploading && d.list.pos <= MaxEntries
    case StoreDataSet =>
      (r == ReadReq(DsIndex, SubChecksum) && session == Uploading) || (r == Command(UlEnd) && session == Ended)
    case DecomposeSet => r == Command(DlStart) && session == Downloading
    case WriteParameter => r.WriteReq? && session == Downloading
    case DownloadDone => (r == Command(DlEnd) || r == ReadReq(DsIndex, SubChecksum)) && session == Ended
    case Faulty => r == Command(Break) && session == Closed
    case _ => false
  }

  function Answered(s: System, a: Answer): Step
    requires Sound(s.d) && Busy(s)
  {
    if s.pending.value.ReadReq? then ReadCnf(s.d, a.reply) else WriteCnf(s.d, a.ok)
  }

  /** The answer is an error. */
  predicate Fails(s: System, a: Answer)
    requires Busy(s)
  {
    if s.pending.value.ReadReq? then a.reply.error == ComError else !a.ok
  }

  /** The answer is an error that the table has no row for in this state. */
  predicate Unhandled(s: System, a: Answer)
    requires Busy(s)
  {
    Fails(s, a) && s.d.state in {CheckIdentity, CheckMemSize, CheckUpload, CheckValidity, DecomposeSet}
  }

  /** The answer to the final checksum request of an upload is too short. */
  predicate ShortChecksum(s: System, a: Answer)
    requires Busy(s)
  {
    s.pending.value.ReadReq? && s.d.state == StoreDataSet && !Fails(s, a) && a.reply.len < 4
  }

  lemma One(o: Out)
    ensures Requests([o]) == if IsRequest(o) then [o] else []
    ensures Outcomes([o]) == if IsOutcome(o) then 1 else 0
    ensures forall s: Session :: TrackAll(Some(s), [o]) == Track(s, o)
  {
    assert [o][1..] == [];
  }

  /** Bound on the answers a transfer still takes. */
  function Measure(d: Ds, r: Out): nat {
    match d.state
    case CheckIdentity => 5002
    case CheckMemSize => 5001
    case CheckUpload => if r.ReadReq? then 5000 else 100
    case CheckValidity => 100
    case ReadParameter => if d.list.pos <= MaxEntries then 76 - d.list.pos else 5
    case StoreDataSet => if r.ReadReq? then 4 else 3
    case DecomposeSet => 5 + StoreSize
    case WriteParameter => if d.store.pos < d.store.size then 5 + d.store.size - d.store.pos else 5
    case DownloadDone => if r.ReadReq? then 3 else 4
    case _ => 1
  }

  /** What a step from inside a transfer leaves: one request of the right kind, or
      none and one outcome. */
  predicate Proceeds(s: System, step: Step)
    requires Sound(s.d) && s.session.Some? && Busy(s)
  {
    && |step.1| == 1 && Sound(step.0)
    && if IsRequest(step.1[0]) then
         var t := Track(s.session.value, step.1[0]);
         && t.Some? && Expected(step.0, step.1[0], t.value)
         && Measure(step.0, step.1[0]) < Measure(s.d, s.pending.value)
       else step.0.state == Waiting
  }

  lemma CheckReadProceeds(s: System, a: Answer)
    requires Consistent(s) && Busy(s) && s.pending.value.ReadReq? && a.reply.error != ComError
    requires s.d.state == CheckIdentity || s.d.state == CheckMemSize
    ensures Proceeds(s, ReadCnf(s.d, a.reply))
  {
  }

  lemma CompareProceeds(s: System, a: Answer)
    requires Consistent(s) && Busy(s) && s.pending.value.ReadReq? && a.reply.error != ComError
    requires s.d.state == CheckUpload
    ensures Proceeds(s, ReadCnf(s.d, a.reply))
  {
    var (g, outs) := TakeChecksum(s.d, a.reply);
    assert outs == [];
    assert [] + React(g, NoUpload).1 == React(g, NoUpload).1;
  }

  lemma ParameterProceeds(s: System, a: Answer)
    requires Consistent(s) && Busy(s) && s.pending.value.ReadReq? && a.reply.error != ComError
    requires s.d.state == ReadParameter
    ensures Proceeds(s, ReadCnf(s.d, a.reply))
  {
    if a.reply.error == NoError {
      TakenProceeds(s, a);
    }
  }

  lemma TakenProceeds(s: System, a: Answer)
    requires Consistent(s) && Busy(s) && s.pending.value.ReadReq? && a.reply.error == NoError
    requires s.d.state == ReadParameter
    ensures Proceeds(s, ReadCnf(s.d, a.reply))
  {
    var g := TakeParameter(s.d, a.reply);
    assert ReadCnf(s.d, a.reply) == NextParameter(g);
    assert g.list.pos == s.d.list.pos;
  }

  lemma StoreProceeds(s: System, a: Answer)
    requires Consistent(s) && Busy(s) && s.pending.value.ReadReq? && a.reply.error != ComError
    requires s.d.state == StoreDataSet && a.reply.len >= 4
    ensures Proceeds(s, ReadCnf(s.d, a.reply))
  {
    assert [] + [Command(UlEnd)] == [Command(UlEnd)];
  }

  lemma DoneProceeds(s: System, a: Answer)
    requires Consistent(s) && Busy(s) && s.pending.value.ReadReq? && a.reply.error != ComError
    requires s.d.state == DownloadDone
    ensures Proceeds(s, ReadCnf(s.d, a.reply))
  {
    var (g, outs) := TakeChecksum(s.d, a.reply);
    if a.reply.len < 4 {
      assert React(g, Done).1 == [];
      assert [Command(Break)] + [] == [Command(Break)];
    } else {
      assert [] + [DsReady] == [DsReady];
    }
  }

  lemma UploadWriteProceeds(s: System)
    requires Consistent(s) && Busy(s) && !s.pending.value.ReadReq?
    requires s.d.state == CheckUpload || s.d.state == CheckValidity || s.d.state == StoreDataSet
    ensures Proceeds(s, WriteCnf(s.d, true))
  {
  }

  lemma SetWriteProceeds(s: System)
    requires Consistent(s) && Busy(s) && !s.pending.value.ReadReq? && s.d.state == DecomposeSet
    ensures Proceeds(s, WriteCnf(s.d, true))
  {
  }

  lemma DownloadWriteProceeds(s: System)
    requires Consistent(s) && Busy(s) && !s.pending.value.ReadReq?
    requires s.d.state == WriteParameter || s.d.state == DownloadDone
    ensures Proceeds(s, WriteCnf(s.d, true))
  {
  }

  lemma FaultProceeds(s: System)
    requires Consistent(s) && Busy(s) && s.d.state == Faulty
    ensures Proceeds(s, WriteCnf(s.d, true))
  {
    assert [DsFault(s.d.fault)] + [] == [DsFault(s.d.fault)];
  }

  /** A handled error breaks the transfer off. */
  lemma ErrorProceeds(s: System)
    requires Consistent(s) && Busy(s)
    requires s.d.state in {ReadParameter, StoreDataSet, WriteParameter, DownloadDone}
    ensures Proceeds(s, React(s.d, ComErr)) && React(s.d, ComErr).1 == [Command(Break)]
  {
  }

  /** In a transfer, an answer that the table has a row for leaves exactly one
      request, or none and the outcome; a break that fails leaves neither. */
  lemma AnswerProceeds(s: System, a: Answer)
    requires Consistent(s) && Busy(s) && !Unhandled(s, a) && !ShortChecksum(s, a)
    ensures
      if Fails(s, a) && s.d.state == Faulty then Answered(s, a) == (s.d.(state := Waiting), [])
      else Proceeds(s, Answered(s, a))
  {
    var d := s.d;
    if d.state == Faulty {
      if !Fails(s, a) {
        FaultProceeds(s);
      }
    } else if Fails(s, a) {
      ErrorProceeds(s);
    } else if s.pending.value.ReadReq? {
      match d.state
      case CheckIdentity => CheckReadProceeds(s, a);
      case CheckMemSize => CheckReadProceeds(s, a);
      case CheckUpload => CompareProceeds(s, a);
      case ReadParameter => ParameterProceeds(s, a);
      case StoreDataSet => StoreProceeds(s, a);
      case DownloadDone => DoneProceeds(s, a);
    } else {
      match d.state
      case CheckUpload => UploadWriteProceeds(s);
      case CheckValidity => UploadWriteProceeds(s);
      case StoreDataSet => UploadWriteProceeds(s);
      case DecomposeSet => SetWriteProceeds(s);
      case WriteParameter => DownloadWriteProceeds(s);
      case DownloadDone => DownloadWriteProceeds(s);
    }
  }

  // --- Every run -----------------------------------------------------------------

  /** Nobody answers any more, and only a new configuration, if anything, helps. */
  predicate Lost(s: System) {
    && Sound(s.d) && s.session.Some? && !Busy(s)
    && s.d.state in {CheckIdentity, CheckMemSize, CheckUpload, CheckValidity, DecomposeSet}
    && (s.d.state in {CheckIdentity, CheckMemSize} ==> s.session.value in {Closed, Ended})
  }

  predicate Safe(s: System) {
    Consistent(s) || Lost(s)
  }

  datatype Input = Receive(a: Answer) | Request(r: Service) | Configure(c: Config)

  /** AL answers only what was asked, the final checksum of an upload in full, and
      a port is not configured while an answer is pending. */
  predicate Possible(s: System, i: Input) {
    match i
    case Receive(a) => Busy(s) && !ShortChecksum(s, a)
    case Request(_) => true
    case Configure(_) => !Busy(s)
  }

  function Outputs(s: System, i: Input): Step
    requires Sound(s.d) && Possible(s, i)
  {
    match i
    case Receive(a) => Answered(s, a)
    case Request(r) => React(s.d, EventOf(r))
    case Configure(c) => React(Configured(s.d, c), Init)
  }

  function Advance(s: System, i: Input): System
    requires Sound(s.d) && Possible(s, i)
  {
    var (d, outs) := Outputs(s, i);
    var left := if i.Receive? then None else s.pending;
    System(d, if Requests(outs) == [] then left else Some(Requests(outs)[0]), TrackAll(s.session, outs))
  }

  lemma ReceiveIsSafe(s: System, a: Answer)
    requires Consistent(s) && Possible(s, Receive(a))
    ensures Safe(Advance(s, Receive(a))) && |Requests(Answered(s, a).1)| <= 1
    ensures Unhandled(s, a) ==> Advance(s, Receive(a)) == s.(pending := None) && Answered(s, a).1 == []
  {
    if !Unhandled(s, a) {
      AnswerProceeds(s, a);
      if !(Fails(s, a) && s.d.state == Faulty) {
        ProceedsSafely(s, a);
      }
    }
  }

  lemma ProceedsSafely(s: System, a: Answer)
    requires Consistent(s) && Possible(s, Receive(a)) && Proceeds(s, Answered(s, a))
    ensures Safe(Advance(s, Receive(a))) && |Requests(Answered(s, a).1)| <= 1
  {
    One(Answered(s, a).1[0]);
    assert Answered(s, a).1 == [Answered(s, a).1[0]];
  }

  /** Requests to start, upload or forget leave a running transfer alone. */
  lemma ServicesLeaveTransfersAlone(s: System, r: Service)
    requires (Consistent(s) && Busy(s)) || Lost(s)
    ensures React(s.d, EventOf(r)) == (s.d, []) && Advance(s, Request(r)) == s
  {
  }

  lemma IdleRequestIsSafe(s: System, r: Service)
    requires Consistent(s) && !Busy(s)
    ensures Safe(Advance(s, Request(r))) && |Requests(React(s.d, EventOf(r)).1)| <= 1
  {
    var outs := React(s.d, EventOf(r)).1;
    if outs != [] {
      One(outs[0]);
      assert outs == [outs[0]];
    }
  }

  lemma ConfigureIsSafe(s: System, c: Config)
    requires Safe(s) && !Busy(s)
    ensures Safe(Advance(s, Configure(c))) && Outputs(s, Configure(c)).1 == []
  {
  }

  /** Safety of every step, hence of every run: never a second AL request while one
      is pending, and every command in its place. */
  lemma StepIsSafe(s: System, i: Input)
    requires Safe(s) && Possible(s, i)
    ensures Safe(Advance(s, i))
    ensures |Requests(Outputs(s, i).1)| <= if Busy(s) && !i.Receive? then 0 else 1
  {
    match i
    case Receive(a) => ReceiveIsSafe(s, a);
    case Request(r) => if Busy(s) || Lost(s) { ServicesLeaveTransfersAlone(s, r); } else { IdleRequestIsSafe(s, r); }
    case Configure(c) => ConfigureIsSafe(s, c);
  }

  ghost predicate AllPossible(s: System, inputs: seq<Input>)
    requires Safe(s)
    decreases |inputs|
  {
    inputs != [] ==>
      Possible(s, inputs[0]) && (StepIsSafe(s, inputs[0]); AllPossible(Advance(s, inputs[0]), inputs[1..]))
  }

  /** All that is emitted in a run. */
  ghost function Play(s: System, inputs: seq<Input>): (System, seq<Out>)
    requires Safe(s) && AllPossible(s, inputs)
    decreases |inputs|
  {
    if inputs == [] then (s, [])
    else
      StepIsSafe(s, inputs[0]);
      var rest := Play(Advance(s, inputs[0]), inputs[1..]);
      (rest.0, Outputs(s, inputs[0]).1 + rest.1)
  }

  lemma {:induction false} TrackJoined(s: Option<Session>, a: seq<Out>, b: seq<Out>)
    ensures TrackAll(s, a + b) == TrackAll(TrackAll(s, a), b)
    decreases |a|
  {
    if a == [] {
      assert a + b == b;
    } else if s.Some? {
      assert (a + b)[1..] == a[1..] + b;
      TrackJoined(Track(s.value, a[0]), a[1..], b);
    }
  }

  /** So the commands of any run, of however many transfers, obey the protocol. */
  lemma {:induction false} RunObeysProtocol(s: System, inputs: seq<Input>)
    requires Safe(s) && AllPossible(s, inputs)
    ensures Safe(Play(s, inputs).0) && TrackAll(s.session, Play(s, inputs).1) == Play(s, inputs).0.session
    ensures TrackAll(s.session, Play(s, inputs).1).Some?
    decreases |inputs|
  {
    if inputs != [] {
      StepIsSafe(s, inputs[0]);
      RunObeysProtocol(Advance(s, inputs[0]), inputs[1..]);
      TrackJoined(s.session, Outputs(s, inputs[0]).1, Play(Advance(s, inputs[0]), inputs[1..]).1);
    }
  }

  /** A short final checksum is what breaks this: it is answered with two requests
      at once, the second of them out of place. */
  lemma ShortChecksumMakesTwoRequests(s: System, a: Answer)
    requires Consistent(s) && Busy(s)
    ensures |Requests(Answered(s, a).1)| == 2 <==> ShortChecksum(s, a)
    ensures ShortChecksum(s, a) ==>
              Answered(s, a).1 == [Command(Break), Command(UlEnd)] && TrackAll(s.session, Answered(s, a).1) == None
  {
    if ShortChecksum(s, a) {
      var outs := Answered(s, a).1;
      assert outs == [Command(Break)] + [Command(UlEnd)];
      assert outs[1..] == [Command(UlEnd)];
      One(outs[1]);
    } else {
      ReceiveIsSafe(s, a);
    }
  }

  // --- Every transfer ----------------------------------------------------------------

  /** The outcome is lost: an error the table has no row for, or a failed break. */
  predicate Swallows(s: System, a: Answer)
    requires Busy(s)
  {
    Unhandled(s, a) || (Fails(s, a) && s.d.state == Faulty)
  }

  /** Answers until nothing is pending, and all that is emitted meanwhile. */
  function Drive(s: System, answers: seq<Answer>): (System, seq<Out>)
    requires Consistent(s) && Complete(s, answers)
    decreases |answers|
  {
    if !Busy(s) || answers == [] then (s, [])
    else
      ReceiveIsSafe(s, answers[0]);
      var t := Advance(s, Receive(answers[0]));
      if !Busy(t) then (t, Answered(s, answers[0]).1)
      else
        var rest := Drive(t, answers[1..]);
        (rest.0, Answered(s, answers[0]).1 + rest.1)
  }

  /** No final checksum is too short. */
  predicate Complete(s: System, answers: seq<Answer>)
    requires Consistent(s)
    decreases |answers|
  {
    Busy(s) && answers != [] ==>
      && !ShortChecksum(s, answers[0])
      && (ReceiveIsSafe(s, answers[0]);
          var t := Advance(s, Receive(answers[0]));
          Busy(t) ==> Complete(t, answers[1..]))
  }

  /** No answer swallows the outcome. */
  predicate Smooth(s: System, answers: seq<Answer>)
    requires Consistent(s) && Complete(s, answers)
    decreases |answers|
  {
    Busy(s) && answers != [] ==>
      && !Swallows(s, answers[0])
      && (ReceiveIsSafe(s, answers[0]);
          var t := Advance(s, Receive(answers[0]));
          Busy(t) ==> Smooth(t, answers[1..]))
  }

  lemma OutcomesOfRequest(o: Out, rest: seq<Out>)
    requires IsRequest(o)
    ensures Outcomes([o] + rest) == Outcomes(rest)
  {
    assert ([o] + rest)[1..] == rest;
  }

  /** Every transfer ends after a bounded number of answers; it ends in exactly one
      outcome, and back in waiting, if and only if no answer swallows it, and in
      none otherwise. */
  lemma {:induction false} TransferEndsInOneOutcome(s: System, answers: seq<Answer>)
    requires Consistent(s) && Busy(s) && Complete(s, answers) && |answers| >= Measure(s.d, s.pending.value)
    ensures
      var (t, outs) := Drive(s, answers);
      && !Busy(t) && Outcomes(outs) == (if Smooth(s, answers) then 1 else 0)
      && (Smooth(s, answers) ==> t.d.state == Waiting)
    decreases |answers|
  {
    var a := answers[0];
    ReceiveIsSafe(s, a);
    var outs := Answered(s, a).1;
    var t := Advance(s, Receive(a));
    if !Swallows(s, a) {
      AnswerProceeds(s, a);
      One(outs[0]);
      assert outs == [outs[0]];
      if Busy(t) {
        TransferEndsInOneOutcome(t, answers[1..]);
        OutcomesOfRequest(outs[0], Drive(t, answers[1..]).1);
      }
    } else if !Unhandled(s, a) {
      AnswerProceeds(s, a);
    }
  }

  /** From the request to the outcome: every startup or upload that is accepted in
      waiting ends within 5002 answers, in exactly one DS_Ready or DS_Fault and back in
      waiting, if and only if no answer swallows the outcome; a device of another
      identity is a fault at once. */
  lemma AcceptedEndsInOneOutcome(s: System, r: Service, answers: seq<Answer>)
    requires Consistent(s) && !Busy(s) && s.d.state == Waiting && r != DeleteReq
    requires
      var t := Advance(s, Request(r));
      Busy(t) ==> Consistent(t) && Complete(t, answers) && |answers| >= 5002
    ensures
      var first, t := React(s.d, EventOf(r)).1, Advance(s, Request(r));
      && (Busy(t) <==> s.d.store.id.vendor == 0 || s.d.store.id == s.d.port)
      && if !Busy(t) then first == [DsFault(IdFault)] && t.d.state == Waiting
      else
        && t.d.state == CheckIdentity && first == [ReadReq(DsIndex, SubSize)]
        && var (u, outs) := Drive(t, answers);
        && !Busy(u) && Outcomes(first + outs) == (if Smooth(t, answers) then 1 else 0)
        && (Smooth(t, answers) ==> u.d.state == Waiting)
  {
    var first, t := React(s.d, EventOf(r)).1, Advance(s, Request(r));
    IdleRequestIsSafe(s, r);
    One(first[0]);
    assert first == [first[0]];
    if Busy(t) {
      TransferEndsInOneOutcome(t, answers);
      OutcomesOfRequest(first[0], Drive(t, answers).1);
    }
  }
}
