/** The whole exchange of a port startup: every read and write, in order, the fault
    that is reported and the mode the port is put into, as the device's page and the
    configuration call for (section 9.2.3 of the IO-Link Interface Specification
    v1.1.3, with the addresses and master commands of its annex B.1). */
module SystemManagementExchange {
  import opened Bytes
  import opened SystemManagement
  import M = OnRequest

  /** A state, and what has just been emitted on the way to it. */
  type Point = (Sm, seq<Out>)

  predicate Asks(outs: seq<Out>) {
    outs != [] && (outs[0].DlRead? || outs[0].DlWrite?)
  }

  /** The device answers a request without error, a read with the byte of its page. */
  function Answer(s: Sm, o: Out, p: Page): Step {
    if o.DlRead? && Reads(s) then ReadCnf(s, p[s.addr])
    else if o.DlWrite? && Writes(s) then WriteCnf(s)
    else (s, [])
  }

  /** The page is `p1`, and `p2` once the device has been restarted. */
  function PageOf(s: Sm, p1: Page, p2: Page): Page {
    if s.retry == 0 then p1 else p2
  }

  /** Up to `n` confirmations: the last state and everything emitted. */
  function Talk(a: Point, p1: Page, p2: Page, n: nat): (Sm, seq<Out>)
    decreases n
  {
    if n == 0 || !Asks(a.1) then a
    else
      var rest := Talk(Answer(a.0, a.1[0], PageOf(a.0, p1, p2)), p1, p2, n - 1);
      (rest.0, a.1 + rest.1)
  }

  lemma TalkNext(a: Point, p1: Page, p2: Page, n: nat, before: seq<Out>)
    requires n > 0 && Asks(a.1)
    ensures
      var b := Answer(a.0, a.1[0], PageOf(a.0, p1, p2));
      before + Talk(a, p1, p2, n).1 == before + a.1 + Talk(b, p1, p2, n - 1).1
  {
    var b := Answer(a.0, a.1[0], PageOf(a.0, p1, p2));
    assert before + (a.1 + Talk(b, p1, p2, n - 1).1) == before + a.1 + Talk(b, p1, p2, n - 1).1;
  }

  // --- What the exchange should be ----------------------------------------------------

  const ComReads: seq<Out> := [DlRead(0x02), DlRead(0x03), DlRead(0x04), DlRead(0x05), DlRead(0x06)]

  const IdReads: seq<Out> :=
    [DlRead(0x07), DlRead(0x08), DlRead(0x09), DlRead(0x0A), DlRead(0x0B), DlRead(0x0C), DlRead(0x0D)]

  /** A restart writes the configured revision, with CFGCOM the three bytes of the
      configured device id, and the command DEVICE IDENT; the read after it is a dummy. */
  function RestartExchange(c: Config): seq<Out> {
    [DlWrite(0x04, c.revision)] +
    (if c.mode == CfgCom then
       [DlWrite(0x09, c.device / 0x1_0000 % 0x100), DlWrite(0x0A, c.device / 0x100 % 0x100), DlWrite(0x0B, c.device % 0x100)]
     else []) +
    [DlWrite(0x00, 0x96), DlRead(0x02)]
  }

  /** The shortest cycle time the port uses: the device's, but not below the floor of
      the transmission rate. */
  function Cycle(p: Page, com1: bool): byte {
    var floor: byte := if com1 then 92 else 79;
    if p[2] < floor then floor else p[2]
  }

  /** How startup ends. A device of revision 1.0 that is accepted is given its cycle time
      and sent to OPERATE, one that is refused is left in OPERATE, or switched off if it
      is too slow; any other is sent to PREOPERATE, and a fault is reported then. */
  function Ending(v: Verdict, p: Page, com1: bool): seq<Out> {
    match v
    case Again => []
    case Ends(WaitPreoperate, _) => [DlWrite(0x00, 0x9A), SetMode(DlPreoperate)]
    case Ends(WaitOperate, _) => [DlWrite(0x01, Cycle(p, com1)), DlWrite(0x00, 0x99), SetMode(DlOperate)]
    case Ends(_, CycleV10) => [PortFault(CycleV10), SetMode(DlInactive)]
    case Ends(_, CompV10) => [PortFault(CompV10), SetMode(DlOperate)]
    case Ends(_, f) => [DlWrite(0x00, 0x9A), PortFault(f), SetMode(DlPreoperate)]
  }

  /** Reading and judging a device that shows the page `p`. */
  function Round(c: Config, com1: bool, p: Page, first: bool): seq<Out> {
    ComReads +
    (if p[4] == 0x10 then IdReads
     else if c.revision != 0 && c.revision != p[4] then [DlWrite(0x00, 0x95)]
     else [DlWrite(0x00, 0x95)] + IdReads) +
    Ending(Judge(c, com1, p, first), p, com1)
  }

  function Exchange(c: Config, com1: bool, p1: Page, p2: Page): seq<Out> {
    if Judge(c, com1, p1, true) == Again then Round(c, com1, p1, true) + RestartExchange(c) + Round(c, com1, p2, false)
    else Round(c, com1, p1, true)
  }

  // --- Exchanges put together ---------------------------------------------------------

  /** From `a`, `k` confirmations lead to `b`, with `trace` emitted before it. */
  ghost predicate Leads(a: Point, b: Point, p1: Page, p2: Page, trace: seq<Out>, k: nat) {
    forall n: nat :: n >= k ==> TalksOn(a, b, p1, p2, trace, k, n)
  }

  predicate TalksOn(a: Point, b: Point, p1: Page, p2: Page, trace: seq<Out>, k: nat, n: nat)
    requires n >= k
  {
    Talk(a, p1, p2, n) == (Talk(b, p1, p2, n - k).0, trace + Talk(b, p1, p2, n - k).1)
  }

  lemma Here(a: Point, p1: Page, p2: Page)
    ensures Leads(a, a, p1, p2, [], 0)
  {
    forall n: nat | n >= 0 ensures TalksOn(a, a, p1, p2, [], 0, n) {
      assert [] + Talk(a, p1, p2, n).1 == Talk(a, p1, p2, n).1;
    }
  }

  lemma OneStep(a: Point, b: Point, p1: Page, p2: Page)
    requires Asks(a.1) && b == Answer(a.0, a.1[0], PageOf(a.0, p1, p2))
    ensures Leads(a, b, p1, p2, a.1, 1)
  {
  }

  lemma Chain(a: Point, b: Point, c: Point, p1: Page, p2: Page, t: seq<Out>, u: seq<Out>, j: nat, k: nat)
    requires Leads(a, b, p1, p2, t, j) && Leads(b, c, p1, p2, u, k)
    ensures Leads(a, c, p1, p2, t + u, j + k)
  {
    var m := j + k;
    forall n: nat | n >= m ensures TalksOn(a, c, p1, p2, t + u, m, n) {
      assert TalksOn(a, b, p1, p2, t, j, n);
      assert TalksOn(b, c, p1, p2, u, k, n - j);
      assert t + (u + Talk(c, p1, p2, n - j - k).1) == t + u + Talk(c, p1, p2, n - j - k).1;
    }
  }

  /** A step, and then the rest. */
  lemma StepChain(a: Point, b: Point, c: Point, p1: Page, p2: Page, u: seq<Out>, k: nat)
    requires Asks(a.1) && b == Answer(a.0, a.1[0], PageOf(a.0, p1, p2)) && Leads(b, c, p1, p2, u, k)
    ensures Leads(a, c, p1, p2, a.1 + u, k + 1)
  {
    OneStep(a, b, p1, p2);
    Chain(a, b, c, p1, p2, a.1, u, 1, k);
  }

  /** `b` is the same port, with the same configuration and as often restarted. */
  predicate SamePort(s: Sm, t: Sm) {
    t.config == s.config && t.com1 == s.com1 && t.retry == s.retry
  }

  function ReadsUpTo(from: nat, to: nat): seq<Out>
    requires to < 256
    decreases if from > to then 0 else to + 1 - from
  {
    if from > to then [] else [DlRead(from)] + ReadsUpTo(from + 1, to)
  }

  lemma ReadLists()
    ensures ReadsUpTo(2, 6) == ComReads && ReadsUpTo(7, 13) == IdReads
  {
    assert ReadsUpTo(5, 6) == [DlRead(5), DlRead(6)];
    assert ReadsUpTo(2, 6) == [DlRead(2), DlRead(3), DlRead(4)] + ReadsUpTo(5, 6);
    assert ReadsUpTo(11, 13) == [DlRead(11), DlRead(12), DlRead(13)];
    assert ReadsUpTo(9, 13) == [DlRead(9), DlRead(10)] + ReadsUpTo(11, 13);
    assert ReadsUpTo(7, 13) == [DlRead(7), DlRead(8)] + ReadsUpTo(9, 13);
  }

  /** The state after the parameters of communication have been read. */
  predicate ComDone(s: Sm, b: Point, p: Page) {
    && SamePort(s, b.0) && ComRead(b.0, p)
    && if p[4] == 0x10 then b.0.state == CheckCompV10 && b.0.addr == 7 && b.1 == [DlRead(7)]
       else b.0.state == CheckVxy && b.1 == [DlWrite(0x00, 0x95)]
  }

  lemma ComStep(s: Sm, p: Page)
    requires s.state == ReadCom && 2 <= s.addr <= 6 && Tracks(s, p)
    ensures
      var (t, outs) := Answer(s, DlRead(s.addr), p);
      if s.addr < 6 then SamePort(s, t) && t.state == ReadCom && t.addr == s.addr + 1 && Tracks(t, p) && outs == [DlRead(t.addr)]
      else ComDone(s, (t, outs), p)
  {
  }

  lemma {:induction false} ReadsCom(s: Sm, p1: Page, p2: Page) returns (b: Point)
    requires s.state == ReadCom && 2 <= s.addr <= 6 && Tracks(s, PageOf(s, p1, p2))
    ensures ComDone(s, b, PageOf(s, p1, p2))
    ensures Leads((s, [DlRead(s.addr)]), b, p1, p2, ReadsUpTo(s.addr, 6), 7 - s.addr)
    decreases 6 - s.addr
  {
    var p := PageOf(s, p1, p2);
    ComStep(s, p);
    var t := Answer(s, DlRead(s.addr), p);
    if s.addr < 6 {
      b := ReadsCom(t.0, p1, p2);
      StepChain((s, [DlRead(s.addr)]), t, b, p1, p2, ReadsUpTo(s.addr + 1, 6), 6 - s.addr);
    } else {
      b := t;
      OneStep((s, [DlRead(s.addr)]), b, p1, p2);
      assert ReadsUpTo(6, 6) == [DlRead(6)];
    }
  }

  /** Where the identifiers are read, and for what kind of device. */
  predicate Identifying(s: Sm, p: Page) {
    && (s.state == CheckComp || s.state == CheckCompV10) && 7 <= s.addr <= 13 && Tracks(s, p) && p[4] == s.found.revision
    && (s.state == CheckCompV10 <==> p[4] == 0x10)
  }

  /** The state once the device has been judged. */
  predicate JudgedNow(s: Sm, b: Point, p: Page) {
    var v := Judge(s.config, s.com1, p, s.retry == 0);
    && b.0.config == s.config && b.0.com1 == s.com1
    && if v == Again then s.retry == 0 && b.0.state == Restarting && b.0.retry == 1 && b.0.addr == 4 && b.1 == [DlWrite(4, s.config.revision)]
       else
         && b.0.retry == s.retry && b.0.state == v.state && (v.state == InspectionFault ==> b.0.error == v.fault)
         && match v.state
            case WaitPreoperate => b.1 == [DlWrite(0x00, 0x9A)]
            case WaitOperate => b.0.addr == 1 && b.1 == [DlWrite(0x01, Cycle(p, s.com1))]
            case _ => if v.fault == CycleV10 || v.fault == CompV10 then b.1 == Ending(v, p, s.com1) else b.1 == [DlWrite(0x00, 0x9A)]
  }

  lemma IdStep(s: Sm, p: Page)
    requires Identifying(s, p) && s.addr < 13
    ensures
      var (t, outs) := Answer(s, DlRead(s.addr), p);
      SamePort(s, t) && Identifying(t, p) && t.addr == s.addr + 1 && outs == [DlRead(t.addr)]
  {
  }

  lemma VerdictStep(s: Sm, p: Page)
    requires Identifying(s, p) && s.addr == 13
    ensures JudgedNow(s, Answer(s, DlRead(13), p), p)
  {
  }

  lemma {:induction false} ReadsId(s: Sm, p1: Page, p2: Page) returns (b: Point)
    requires Identifying(s, PageOf(s, p1, p2))
    ensures JudgedNow(s, b, PageOf(s, p1, p2))
    ensures Leads((s, [DlRead(s.addr)]), b, p1, p2, ReadsUpTo(s.addr, 13), 14 - s.addr)
    decreases 13 - s.addr
  {
    var p := PageOf(s, p1, p2);
    var t := Answer(s, DlRead(s.addr), p);
    if s.addr < 13 {
      IdStep(s, p);
      b := ReadsId(t.0, p1, p2);
      StepChain((s, [DlRead(s.addr)]), t, b, p1, p2, ReadsUpTo(s.addr + 1, 13), 13 - s.addr);
    } else {
      VerdictStep(s, p);
      b := t;
      OneStep((s, [DlRead(s.addr)]), b, p1, p2);
      assert ReadsUpTo(13, 13) == [DlRead(13)];
    }
  }

  /** Confirmation of the MASTER IDENT command: the revision is judged. */
  lemma RevisionStep(s: Sm, p: Page)
    requires s.state == CheckVxy && ComRead(s, p) && p[4] != 0x10
    ensures
      var b := Answer(s, DlWrite(0x00, 0x95), p);
      if s.config.revision != 0 && s.config.revision != p[4] then JudgedNow(s, b, p)
      else SamePort(s, b.0) && Identifying(b.0, p) && b.0.addr == 7 && b.1 == [DlRead(7)]
  {
  }

  /** What is emitted between the first read and the verdict. */
  function Inquiry(c: Config, p: Page): seq<Out> {
    ComReads +
    (if p[4] == 0x10 then IdReads
     else if c.revision != 0 && c.revision != p[4] then [DlWrite(0x00, 0x95)]
     else [DlWrite(0x00, 0x95)] + IdReads)
  }

  /** From the MASTER IDENT command to the verdict. */
  lemma RevisionInquired(a: Point, p1: Page, p2: Page) returns (b: Point, t: seq<Out>, k: nat)
    requires a.0.state == CheckVxy && a.1 == [DlWrite(0x00, 0x95)]
    requires ComRead(a.0, PageOf(a.0, p1, p2)) && PageOf(a.0, p1, p2)[4] != 0x10
    ensures JudgedNow(a.0, b, PageOf(a.0, p1, p2)) && k <= 8 && Leads(a, b, p1, p2, t, k)
    ensures t == if a.0.config.revision != 0 && a.0.config.revision != PageOf(a.0, p1, p2)[4] then [DlWrite(0x00, 0x95)]
                 else [DlWrite(0x00, 0x95)] + IdReads
  {
    var p := PageOf(a.0, p1, p2);
    RevisionStep(a.0, p);
    var c := Answer(a.0, DlWrite(0x00, 0x95), p);
    if a.0.config.revision != 0 && a.0.config.revision != p[4] {
      b, t, k := c, a.1, 1;
      OneStep(a, b, p1, p2);
    } else {
      ReadLists();
      b := ReadsId(c.0, p1, p2);
      t, k := a.1 + IdReads, 8;
      StepChain(a, c, b, p1, p2, IdReads, 7);
    }
  }

  lemma SameJudgement(s: Sm, t: Sm, b: Point, p: Page)
    requires SamePort(s, t) && JudgedNow(t, b, p)
    ensures JudgedNow(s, b, p)
  {
  }

  lemma Inquired(s: Sm, p1: Page, p2: Page) returns (b: Point, k: nat)
    requires s.state == ReadCom && s.addr == 2
    ensures JudgedNow(s, b, PageOf(s, p1, p2)) && k <= 13
    ensures Leads((s, [DlRead(2)]), b, p1, p2, Inquiry(s.config, PageOf(s, p1, p2)), k)
  {
    var p := PageOf(s, p1, p2);
    ReadLists();
    var a := ReadsCom(s, p1, p2);
    var rest;
    if p[4] == 0x10 {
      b := ReadsId(a.0, p1, p2);
      rest, k := IdReads, 7;
    } else {
      b, rest, k := RevisionInquired(a, p1, p2);
    }
    SameJudgement(s, a.0, b, p);
    Chain((s, [DlRead(2)]), a, b, p1, p2, ComReads, rest, 5, k);
    k := 5 + k;
  }

  /** `z` has asked for nothing more, and `trace` and what it emits are `all`. */
  ghost predicate Closes(b: Point, z: Point, p1: Page, p2: Page, trace: seq<Out>, k: nat, all: seq<Out>) {
    Leads(b, z, p1, p2, trace, k) && !Asks(z.1) && trace + z.1 == all
  }

  lemma FaultsOf(c: Config, com1: bool, p: Page, first: bool)
    requires Judge(c, com1, p, first).Ends?
    ensures
      var v := Judge(c, com1, p, first);
      && (v.state == WaitPreoperate || v.state == WaitOperate || v.state == InspectionFault)
      && (v.state == InspectionFault <==> v.fault in {CycleV10, CompV10, Revision, Comp, Fault.Cycle})
  {
  }

  lemma EndsFromPreoperate(b: Point, p1: Page, p2: Page) returns (z: Point)
    requires b.0.state == WaitPreoperate && b.1 == [DlWrite(0x00, 0x9A)]
    ensures Closes(b, z, p1, p2, b.1, 1, [DlWrite(0x00, 0x9A), SetMode(DlPreoperate)]) && z.0 == b.0
  {
    z := (b.0, [SetMode(DlPreoperate)]);
    OneStep(b, z, p1, p2);
  }

  lemma EndsFromFault(b: Point, p1: Page, p2: Page) returns (z: Point)
    requires b.0.state == InspectionFault && b.1 == [DlWrite(0x00, 0x9A)] && b.0.error in {Revision, Comp, Fault.Cycle}
    ensures Closes(b, z, p1, p2, b.1, 1, [DlWrite(0x00, 0x9A), PortFault(b.0.error), SetMode(DlPreoperate)]) && z.0 == b.0
  {
    z := (b.0, [PortFault(b.0.error), SetMode(DlPreoperate)]);
    OneStep(b, z, p1, p2);
  }

  lemma EndsFromOperate(b: Point, p1: Page, p2: Page) returns (z: Point)
    requires b.0.state == WaitOperate && b.0.addr == 1 && |b.1| == 1 && b.1[0].DlWrite?
    ensures Closes(b, z, p1, p2, b.1 + [DlWrite(0x00, 0x99)], 2, b.1 + [DlWrite(0x00, 0x99), SetMode(DlOperate)])
    ensures z.0 == b.0.(addr := 0)
  {
    var c := (b.0.(addr := 0), [DlWrite(0x00, 0x99)]);
    z := (c.0, [SetMode(DlOperate)]);
    OneStep(c, z, p1, p2);
    StepChain(b, c, z, p1, p2, c.1, 1);
  }

  /** From the verdict to the end. */
  lemma Ended(s: Sm, b: Point, p: Page, p1: Page, p2: Page) returns (z: Point, trace: seq<Out>, k: nat)
    requires JudgedNow(s, b, p) && Judge(s.config, s.com1, p, s.retry == 0).Ends?
    ensures Closes(b, z, p1, p2, trace, k, Ending(Judge(s.config, s.com1, p, s.retry == 0), p, s.com1)) && k <= 2
    ensures z.0.state == Judge(s.config, s.com1, p, s.retry == 0).state
  {
    var v := Judge(s.config, s.com1, p, s.retry == 0);
    FaultsOf(s.config, s.com1, p, s.retry == 0);
    if v.state == WaitPreoperate {
      z := EndsFromPreoperate(b, p1, p2);
      trace, k := b.1, 1;
    } else if v.state == WaitOperate {
      z := EndsFromOperate(b, p1, p2);
      trace, k := b.1 + [DlWrite(0x00, 0x99)], 2;
      assert b.1 + [DlWrite(0x00, 0x99), SetMode(DlOperate)] == Ending(v, p, s.com1);
    } else if v.fault == CycleV10 || v.fault == CompV10 {
      Here(b, p1, p2);
      z, trace, k := b, [], 0;
      assert [] + b.1 == b.1;
    } else {
      z := EndsFromFault(b, p1, p2);
      trace, k := b.1, 1;
    }
  }

  /** From the verdict through the restart to the first read of the second round. */
  lemma Restarted(s: Sm, b: Point, p1: Page, p2: Page) returns (r: Sm, k: nat)
    requires b.0.state == Restarting && b.0.retry == 1 && b.0.addr == 4 && b.1 == [DlWrite(4, b.0.config.revision)]
    requires b.0.config == s.config && b.0.com1 == s.com1
    ensures r.state == ReadCom && r.addr == 2 && r.retry == 1 && r.config == s.config && r.com1 == s.com1 && k <= 6
    ensures Leads(b, (r, [DlRead(2)]), p1, p2, RestartExchange(s.config), k)
  {
    var c, t := s.config, b.0;
    var e := (t.(addr := 0), [DlWrite(0x00, 0x96)]);
    var f := (t.(addr := 2), [DlRead(0x02)]);
    var g := Answer(f.0, DlRead(0x02), p2);
    r := g.0;
    OneStep(f, g, p1, p2);
    StepChain(e, f, g, p1, p2, [DlRead(0x02)], 1);
    if c.mode == CfgCom {
      var x := (t.(addr := 9), [DlWrite(0x09, c.device / 0x1_0000 % 0x100)]);
      var y := (t.(addr := 10), [DlWrite(0x0A, c.device / 0x100 % 0x100)]);
      var z := (t.(addr := 11), [DlWrite(0x0B, c.device % 0x100)]);
      StepChain(z, e, g, p1, p2, e.1 + f.1, 2);
      StepChain(y, z, g, p1, p2, z.1 + (e.1 + f.1), 3);
      StepChain(x, y, g, p1, p2, y.1 + (z.1 + (e.1 + f.1)), 4);
      StepChain(b, x, g, p1, p2, x.1 + (y.1 + (z.1 + (e.1 + f.1))), 5);
      k := 6;
      assert b.1 + (x.1 + (y.1 + (z.1 + (e.1 + f.1)))) == RestartExchange(c);
    } else {
      StepChain(b, e, g, p1, p2, e.1 + f.1, 2);
      k := 3;
      assert b.1 + (e.1 + f.1) == RestartExchange(c);
    }
  }

  lemma RoundParts(c: Config, com1: bool, p: Page, first: bool)
    ensures Round(c, com1, p, first) == Inquiry(c, p) + Ending(Judge(c, com1, p, first), p, com1)
  {
  }

  /** One round to the end. */
  lemma RoundEnds(s: Sm, p1: Page, p2: Page) returns (z: Point, trace: seq<Out>, k: nat)
    requires s.state == ReadCom && s.addr == 2 && Judge(s.config, s.com1, PageOf(s, p1, p2), s.retry == 0).Ends?
    ensures
      var p := PageOf(s, p1, p2);
      && Closes((s, [DlRead(2)]), z, p1, p2, trace, k, Round(s.config, s.com1, p, s.retry == 0)) && k <= 15
      && z.0.state == Judge(s.config, s.com1, p, s.retry == 0).state
  {
    var p := PageOf(s, p1, p2);
    var b, j := Inquired(s, p1, p2);
    var t, i;
    z, t, i := Ended(s, b, p, p1, p2);
    trace, k := Inquiry(s.config, p) + t, j + i;
    Chain((s, [DlRead(2)]), b, z, p1, p2, Inquiry(s.config, p), t, j, i);
    RoundParts(s.config, s.com1, p, s.retry == 0);
    assert Inquiry(s.config, p) + t + z.1 == Inquiry(s.config, p) + (t + z.1);
  }

  /** A first round that leads to a restart, and the second. */
  lemma SecondRoundEnds(s: Sm, p1: Page, p2: Page) returns (z: Point, trace: seq<Out>, k: nat)
    requires s.state == ReadCom && s.addr == 2 && s.retry == 0 && Judge(s.config, s.com1, p1, true) == Again
    ensures Closes((s, [DlRead(2)]), z, p1, p2, trace, k, Exchange(s.config, s.com1, p1, p2)) && k <= 34
    ensures z.0.state == Judge(s.config, s.com1, p2, false).state
  {
    var b, j := Inquired(s, p1, p2);
    var r, i := Restarted(s, b, p1, p2);
    var t, h;
    z, t, h := RoundEnds(r, p1, p2);
    var inquiry, restart := Inquiry(s.config, p1), RestartExchange(s.config);
    Chain((s, [DlRead(2)]), b, (r, [DlRead(2)]), p1, p2, inquiry, restart, j, i);
    Chain((s, [DlRead(2)]), (r, [DlRead(2)]), z, p1, p2, inquiry + restart, t, j + i, h);
    trace, k := inquiry + restart + t, j + i + h;
    RoundParts(s.config, s.com1, p1, true);
    assert inquiry + [] == inquiry;
    assert inquiry + restart + t + z.1 == inquiry + restart + (t + z.1);
  }

  lemma TalkEnds(a: Point, z: Point, p1: Page, p2: Page, trace: seq<Out>, k: nat, all: seq<Out>, n: nat)
    requires Closes(a, z, p1, p2, trace, k, all) && n >= k
    ensures Talk(a, p1, p2, n) == (z.0, all)
  {
    assert TalksOn(a, z, p1, p2, trace, k, n);
    assert Talk(z, p1, p2, n - k) == z;
  }

  /** The whole exchange. Within 34 confirmations a startup has read, written, reported
      and requested exactly what the configuration and the device's pages call for, and
      stands in the state of the verdict. */
  lemma StartupExchange(s: Sm, p1: Page, p2: Page, n: nat)
    requires n >= 34
    ensures
      var first := Judge(s.config, s.com1, p1, true);
      var (z, all) := Talk(Begin(s), p1, p2, n);
      && all == Exchange(s.config, s.com1, p1, p2)
      && z.state == if first == Again then Judge(s.config, s.com1, p2, false).state else first.state
  {
    var t := Begin(s).0;
    var z, trace, k;
    if Judge(s.config, s.com1, p1, true) == Again {
      z, trace, k := SecondRoundEnds(t, p1, p2);
    } else {
      z, trace, k := RoundEnds(t, p1, p2);
    }
    TalkEnds(Begin(s), z, p1, p2, trace, k, Exchange(s.config, s.com1, p1, p2), n);
  }

  lemma BeginsExchange(s: Sm, p1: Page, p2: Page)
    ensures Exchange(s.config, s.com1, p1, p2) == [] + Talk(Begin(s), p1, p2, 34).1
  {
    StartupExchange(s, p1, p2, 34);
  }

  lemma TalkOver(a: Point, p1: Page, p2: Page, n: nat)
    requires n == 0 || !Asks(a.1)
    ensures Talk(a, p1, p2, n) == a
  {
  }

  // --- What follows of the mode, the fault and the master commands ------------------------

  function Modes(outs: seq<Out>): seq<DlMode> {
    if outs == [] then []
    else if outs[0].SetMode? then [outs[0].mode] + Modes(outs[1..]) else Modes(outs[1..])
  }

  function Faults(outs: seq<Out>): seq<Fault> {
    if outs == [] then []
    else if outs[0].PortFault? then [outs[0].fault] + Faults(outs[1..]) else Faults(outs[1..])
  }

  lemma {:induction false} SplitExchange(a: seq<Out>, b: seq<Out>)
    ensures Modes(a + b) == Modes(a) + Modes(b) && Faults(a + b) == Faults(a) + Faults(b)
    decreases |a|
  {
    if a == [] {
      assert a + b == b;
    } else {
      assert (a + b)[1..] == a[1..] + b;
      SplitExchange(a[1..], b);
    }
  }

  /** Only requests: no mode, no fault. */
  lemma {:induction false} RequestsOnly(outs: seq<Out>)
    requires forall i :: 0 <= i < |outs| ==> outs[i].DlRead? || outs[i].DlWrite?
    ensures Modes(outs) == [] && Faults(outs) == []
    decreases |outs|
  {
    if outs != [] {
      RequestsOnly(outs[1..]);
    }
  }

  /** The mode a verdict puts the port into. */
  function ModeOf(v: Verdict): DlMode
    requires v.Ends?
  {
    if v.state == WaitOperate || v.fault == CompV10 then DlOperate
    else if v.fault == CycleV10 then DlInactive
    else DlPreoperate
  }

  lemma OneReport(o: Out)
    ensures Modes([o]) == if o.SetMode? then [o.mode] else []
    ensures Faults([o]) == if o.PortFault? then [o.fault] else []
  {
    assert [o][1..] == [];
  }

  /** The modes and faults among at most three outputs. */
  lemma ShortReports(outs: seq<Out>)
    requires 2 <= |outs| <= 3
    ensures Modes(outs) == Modes([outs[0]]) + Modes([outs[1]]) + if |outs| == 3 then Modes([outs[2]]) else []
    ensures Faults(outs) == Faults([outs[0]]) + Faults([outs[1]]) + if |outs| == 3 then Faults([outs[2]]) else []
  {
    var front := [outs[0]] + [outs[1]];
    SplitExchange([outs[0]], [outs[1]]);
    if |outs| == 3 {
      SplitExchange(front, [outs[2]]);
      assert outs == front + [outs[2]];
    } else {
      assert outs == front;
    }
  }

  /** What an end reports, output by output. */
  lemma EndingReports(c: Config, com1: bool, p: Page, first: bool)
    requires Judge(c, com1, p, first).Ends?
    ensures
      var v := Judge(c, com1, p, first);
      && Modes(Ending(v, p, com1)) == [ModeOf(v)]
      && Faults(Ending(v, p, com1)) == if v.state == InspectionFault then [v.fault] else []
  {
    var v := Judge(c, com1, p, first);
    FaultsOf(c, com1, p, first);
    VerdictReports(v, p, com1);
  }

  lemma VerdictReports(v: Verdict, p: Page, com1: bool)
    requires v.Ends? && (v.state == WaitPreoperate || v.state == WaitOperate || v.state == InspectionFault)
    requires v.state == InspectionFault <==> v.fault in {CycleV10, CompV10, Revision, Comp, Fault.Cycle}
    ensures Modes(Ending(v, p, com1)) == [ModeOf(v)]
    ensures Faults(Ending(v, p, com1)) == if v.state == InspectionFault then [v.fault] else []
  {
    var e := Ending(v, p, com1);
    ShortReports(e);
    OneReport(e[0]);
    OneReport(e[1]);
    if |e| == 3 {
      OneReport(e[2]);
    }
  }

  lemma RoundReports(c: Config, com1: bool, p: Page, first: bool)
    ensures
      var v := Judge(c, com1, p, first);
      && Modes(Round(c, com1, p, first)) == (if v == Again then [] else [ModeOf(v)])
      && Faults(Round(c, com1, p, first)) == (if v.Ends? && v.state == InspectionFault then [v.fault] else [])
  {
    var v := Judge(c, com1, p, first);
    RoundParts(c, com1, p, first);
    RequestsOnly(Inquiry(c, p));
    SplitExchange(Inquiry(c, p), Ending(v, p, com1));
    if v.Ends? {
      EndingReports(c, com1, p, first);
    }
  }

  /** A startup puts the port into one mode, once, and reports a fault once or not at
      all: PREOPERATE for an accepted device and for a fault of one that is not of
      revision 1.0; OPERATE for an accepted device of revision 1.0 and for one of the
      wrong identity; INACTIVE for one of revision 1.0 that is too slow. */
  lemma StartupReportsOnce(s: Sm, p1: Page, p2: Page, n: nat)
    requires n >= 34
    ensures
      var first := Judge(s.config, s.com1, p1, true);
      var v := if first == Again then Judge(s.config, s.com1, p2, false) else first;
      var all := Talk(Begin(s), p1, p2, n).1;
      v.Ends? && Modes(all) == [ModeOf(v)] && Faults(all) == if v.state == InspectionFault then [v.fault] else []
  {
    var first := Judge(s.config, s.com1, p1, true);
    StartupExchange(s, p1, p2, n);
    RoundReports(s.config, s.com1, p1, true);
    if first == Again {
      var a, b, c := Round(s.config, s.com1, p1, true), RestartExchange(s.config), Round(s.config, s.com1, p2, false);
      RequestsOnly(b);
      SplitExchange(a, b);
      SplitExchange(a + b, c);
      RoundReports(s.config, s.com1, p2, false);
    }
  }

  // --- The same commands in the data link layer -----------------------------------------

  /** The data link layer sends a device to a mode with the master command that System
      Management uses, and with the other three of the specification. */
  lemma MasterCommands()
    ensures M.CommandFor(M.ModeOperate) == DeviceOperate == 0x99
    ensures M.CommandFor(M.ModePreoperate) == DevicePreoperate == 0x9A
    ensures M.CommandFor(M.ModeInactive) == 0x5A && M.CommandFor(M.ModeStartup) == 0x97
    ensures M.CommandOf(M.Control(M.PdOutValid)) == 0x98 && M.CommandOf(M.Control(M.PdOutInvalid)) == DeviceOperate
    ensures MasterIdent == 0x95 && DeviceIdent == 0x96
  {
  }
}
