/** The on-request data service of the application layer: clients are confirmed once
    each, and see what the data link layer made of the device's response
    (section 8.3.2 of the IO-Link Interface Specification v1.1.3). */
module ApplicationLayer {
  import opened Bytes
  import opened DlTypes
  import Isdu

  datatype State = OnReqIdle | AwaitParam | AwaitIsdu

  /** A request of a client; `id` stands for its callback. */
  datatype Client = Client(id: nat, read: bool, index: nat, subindex: byte, data: seq<byte>)

  /** The service record. `dataRead` keeps what earlier services left. */
  datatype Service = Service(client: Client, dataRead: seq<byte>, dataLen: nat, status: Status, qualifier: nat)

  datatype OnReq = OnReq(state: State, service: Service)

  datatype Out =
    | ReadParam(addr: nat)
    | WriteParam(addr: nat, value: byte)
    | Transport(request: Isdu.Request)
    | Callback(id: nat, data: seq<byte>, errortype: nat)

  type Step = (OnReq, seq<Out>)

  // SMI error types.
  const Success: nat := 0x0000
  const ComErr: nat := 0x1000
  const ServiceTimeout: nat := 0x1100
  const TempUnavailable: nat := 0x4036
  const IsduChecksum: nat := 0x5600
  const IsduIllegal: nat := 0x5700
  const AppDev: nat := 0x8000

  predicate Valid(a: OnReq) {
    |a.service.dataRead| == Isdu.IsduMaxSize && a.service.dataLen < 256
  }

  function StatusError(s: Status): nat {
    match s
    case NoError => Success
    case IllegalServicePrimitive => IsduIllegal
    case Invalid => ComErr
    case ChecksumError => IsduChecksum
    case IsduTimeout => ServiceTimeout
    case _ => AppDev
  }

  /** The two bytes of a negative response, if it has two. */
  function DeviceError(s: Service): nat
    requires |s.dataRead| >= 2
  {
    if s.dataLen == 2 then BigEndian16(s.dataRead[0], s.dataRead[1]) else AppDev
  }

  /** What an ISDU confirmation says before the status is looked at. */
  function IsduError(s: Service): nat
    requires |s.dataRead| >= 2
  {
    if s.status == ChecksumError then IsduChecksum
    else if s.client.read then
      if s.qualifier == Isdu.ReadNeg then DeviceError(s)
      else if s.qualifier == Isdu.ReadPos then Success
      else AppDev
    else
      if s.qualifier == Isdu.WriteNeg then DeviceError(s)
      else if s.qualifier == Isdu.NoService && s.status == NoError then ComErr
      else Success
  }

  function ErrorType(s: Service, isdu: bool): nat
    requires |s.dataRead| >= 2
  {
    var e := if isdu then IsduError(s) else Success;
    if e == Success then StatusError(s.status) else e
  }

  function Confirm(a: OnReq, isdu: bool): Step
    requires Valid(a)
  {
    var s := a.service;
    (a.(state := OnReqIdle),
     [Callback(s.client.id,
               if s.client.read && s.dataLen <= |s.dataRead| then s.dataRead[..s.dataLen] else [],
               ErrorType(s, isdu))])
  }

  /** A client request; the value written to parameter 1 is its first byte. */
  function Serve(a: OnReq, c: Client): Step
    requires Valid(a) && c.index < 0x1_0000 && |c.data| < 256 && (!c.read && c.index == 1 ==> c.data != [])
  {
    if a.state != OnReqIdle then (a, [Callback(c.id, [], TempUnavailable)])
    else
      var s := a.service.(client := c, dataLen := if c.read then 0 else |c.data|);
      if c.read && c.index <= 1 then (OnReq(AwaitParam, s), [ReadParam(c.index)])
      else if !c.read && c.index == 1 then (OnReq(AwaitParam, s), [WriteParam(1, c.data[0])])
      else if c.index >= 2 then
        (OnReq(AwaitIsdu, s), [Transport(Isdu.Request(c.read, c.index, c.subindex, if c.read then [] else c.data))])
      else (OnReq(OnReqIdle, s.(status := ParameterConflict)), [Callback(c.id, [], AppDev)])
  }

  function ReadParamDone(a: OnReq, value: byte, status: Status): Step
    requires Valid(a) && a.state == AwaitParam && a.service.client.read && a.service.dataLen == 0
  {
    var s := a.service;
    Confirm(a.(service := s.(dataRead := s.dataRead[0 := value], dataLen := 1, status := status)), false)
  }

  function WriteParamDone(a: OnReq, status: Status): Step
    requires Valid(a) && a.state == AwaitParam && !a.service.client.read
  {
    Confirm(a.(service := a.service.(status := status)), false)
  }

  /** The data link layer passes data on with these outcomes only. */
  predicate HasData(status: Status) {
    status == NoError || status == ChecksumError || status == Invalid
  }

  function Copied(s: Service, data: seq<byte>): (t: Service)
    requires |s.dataRead| == Isdu.IsduMaxSize && |data| < 256
    ensures |t.dataRead| == Isdu.IsduMaxSize && t.client == s.client
  {
    if |data| <= Isdu.IsduMaxSize then s.(dataRead := data + s.dataRead[|data|..], dataLen := |data|) else s
  }

  /** DL_ISDUTransport_cnf and the job it posts. */
  function IsduDone(a: OnReq, data: seq<byte>, qualifier: nat, status: Status): Step
    requires Valid(a) && a.state == AwaitIsdu && |data| < 256
  {
    var s := a.service;
    var t :=
      if s.client.read then if status == NoError then Copied(s, data) else s
      else if qualifier == Isdu.WriteNeg && HasData(status) then Copied(s, data)
      else s;
    Confirm(a.(service := t.(status := status, qualifier := qualifier)), true)
  }

  /** A request that arrives while another is served is turned away at once and
      does not touch the service record. */
  lemma BusyTurnsAway(a: OnReq, c: Client)
    requires Valid(a) && c.index < 0x1_0000 && |c.data| < 256 && (!c.read && c.index == 1 ==> c.data != [])
    ensures Serve(a, c) == (a, [Callback(c.id, [], TempUnavailable)]) <==> a.state != OnReqIdle
  {
  }

  // --- Every run: each client is called back once ----------------------------------

  datatype Input =
    | Request(client: Client)
    | ReadParamCnf(value: byte, status: Status)
    | WriteParamCnf(status: Status)
    | IsduCnf(data: seq<byte>, qualifier: nat, status: Status)

  /** Clients make well-formed requests; the data link layer confirms what it was
      asked for, once. */
  predicate Possible(a: OnReq, i: Input) {
    match i
    case Request(c) => c.index < 0x1_0000 && |c.data| < 256 && (!c.read && c.index == 1 ==> c.data != [])
    case ReadParamCnf(_, _) => a.state == AwaitParam && a.service.client.read
    case WriteParamCnf(_) => a.state == AwaitParam && !a.service.client.read
    case IsduCnf(data, _, _) => a.state == AwaitIsdu && |data| < 256
  }

  /** A read that waits has no data yet. */
  predicate Inv(a: OnReq) {
    Valid(a) && (a.state != OnReqIdle && a.service.client.read ==> a.service.dataLen == 0)
  }

  function Apply(a: OnReq, i: Input): (r: Step)
    requires Inv(a) && Possible(a, i)
    ensures Inv(r.0)
  {
    match i
    case Request(c) => Serve(a, c)
    case ReadParamCnf(value, status) => ReadParamDone(a, value, status)
    case WriteParamCnf(status) => WriteParamDone(a, status)
    case IsduCnf(data, qualifier, status) => IsduDone(a, data, qualifier, status)
  }

  predicate AllPossible(a: OnReq, inputs: seq<Input>)
    requires Inv(a)
    decreases |inputs|
  {
    inputs != [] ==> Possible(a, inputs[0]) && AllPossible(Apply(a, inputs[0]).0, inputs[1..])
  }

  function Play(a: OnReq, inputs: seq<Input>): (r: Step)
    requires Inv(a) && AllPossible(a, inputs)
    ensures Inv(r.0)
    decreases |inputs|
  {
    if inputs == [] then (a, [])
    else
      var rest := Play(Apply(a, inputs[0]).0, inputs[1..]);
      (rest.0, Apply(a, inputs[0]).1 + rest.1)
  }

  /** Whose callbacks were called, and how often. */
  function Called(outs: seq<Out>): multiset<nat> {
    if outs == [] then multiset{}
    else (if outs[0].Callback? then multiset{outs[0].id} else multiset{}) + Called(outs[1..])
  }

  function Asked(inputs: seq<Input>): multiset<nat> {
    if inputs == [] then multiset{}
    else (if inputs[0].Request? then multiset{inputs[0].client.id} else multiset{}) + Asked(inputs[1..])
  }

  function Served(a: OnReq): multiset<nat> {
    if a.state == OnReqIdle then multiset{} else multiset{a.service.client.id}
  }

  lemma {:induction false} CalledJoined(a: seq<Out>, b: seq<Out>)
    ensures Called(a + b) == Called(a) + Called(b)
    decreases |a|
  {
    if a == [] {
      assert a + b == b;
    } else {
      assert (a + b)[1..] == a[1..] + b;
      CalledJoined(a[1..], b);
    }
  }

  function AskedBy(i: Input): multiset<nat> {
    if i.Request? then multiset{i.client.id} else multiset{}
  }

  lemma CalledByOne(o: Out)
    ensures Called([o]) == if o.Callback? then multiset{o.id} else multiset{}
  {
    assert [o][1..] == [];
  }

  lemma RequestCalls(a: OnReq, c: Client)
    requires Inv(a) && Possible(a, Request(c))
    ensures var (b, outs) := Serve(a, c); Served(a) + multiset{c.id} == Called(outs) + Served(b)
  {
    var outs := Serve(a, c).1;
    CalledByOne(outs[0]);
    assert outs == [outs[0]];
  }

  lemma OneStepCalls(a: OnReq, i: Input)
    requires Inv(a) && Possible(a, i)
    ensures var (b, outs) := Apply(a, i); Served(a) + AskedBy(i) == Called(outs) + Served(b)
  {
    if i.Request? {
      RequestCalls(a, i.client);
    } else {
      var (b, outs) := Apply(a, i);
      CalledByOne(outs[0]);
      assert outs == [outs[0]];
    }
  }

  /** Whatever is asked, by however many clients, in whatever order: everyone who
      asked has been called back once, but for the one being served. */
  lemma {:induction false} EveryClientCalledOnce(a: OnReq, inputs: seq<Input>)
    requires Inv(a) && AllPossible(a, inputs)
    ensures Served(a) + Asked(inputs) == Called(Play(a, inputs).1) + Served(Play(a, inputs).0)
    decreases |inputs|
  {
    if inputs != [] {
      OneStepCalls(a, inputs[0]);
      var (b, outs) := Apply(a, inputs[0]);
      EveryClientCalledOnce(b, inputs[1..]);
      CalledJoined(outs, Play(b, inputs[1..]).1);
      assert Asked(inputs) == AskedBy(inputs[0]) + Asked(inputs[1..]);
      Balanced(Served(a), AskedBy(inputs[0]), Called(outs), Served(b),
               Asked(inputs[1..]), Called(Play(b, inputs[1..]).1), Served(Play(b, inputs[1..]).0));
    }
  }

  lemma Balanced<T>(s0: multiset<T>, q0: multiset<T>, c0: multiset<T>, s1: multiset<T>, q1: multiset<T>, c1: multiset<T>,
                    s2: multiset<T>)
    requires s0 + q0 == c0 + s1 && s1 + q1 == c1 + s2
    ensures s0 + (q0 + q1) == (c0 + c1) + s2
  {
    assert s0 + (q0 + q1) == (s0 + q0) + q1 == c0 + (s1 + q1);
  }

  // --- What a client sees ------------------------------------------------------------

  /** Only success is reported as success: no timeout, abort, checksum error or
      illegal response reaches a client as error type NONE. */
  lemma FailureIsNeverSuccess(a: OnReq, data: seq<byte>, qualifier: nat, status: Status)
    requires Inv(a) && a.state == AwaitIsdu && |data| < 256 && status != NoError
    ensures IsduDone(a, data, qualifier, status).1[0].errortype != Success
  {
  }

  /** A response of the right direction is reported as success if and only if its
      checksum is right and it is positive, or negative with the code 0x0000. */
  lemma SuccessExactly(a: OnReq, data: seq<byte>, qualifier: nat, status: Status)
    requires Inv(a) && a.state == AwaitIsdu && |data| <= Isdu.IsduMaxSize
    requires Isdu.AnswersDirection(qualifier, a.service.client.read)
    ensures
      IsduDone(a, data, qualifier, status).1[0].errortype == Success <==>
        && status == NoError
        && (qualifier == Isdu.ReadPos || qualifier == Isdu.WritePos || (|data| == 2 && data[0] == 0 && data[1] == 0))
  {
  }

  /** A negative response with two bytes gives the client exactly those, but 0x0000. */
  lemma ClientSeesDeviceError(a: OnReq, data: seq<byte>, qualifier: nat)
    requires Inv(a) && a.state == AwaitIsdu && |data| == 2
    requires qualifier == if a.service.client.read then Isdu.ReadNeg else Isdu.WriteNeg
    ensures IsduDone(a, data, qualifier, NoError).1[0].errortype == BigEndian16(data[0], data[1])
  {
  }
}
