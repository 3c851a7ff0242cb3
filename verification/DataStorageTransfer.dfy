/** What a transfer moves: an upload stores the parameters of the device, and a
    download writes back exactly those, in the same order. */
module DataStorageTransfer {
  import opened Bytes
  import opened DataStorage

  datatype Cnf = Reads(reply: Reply) | Wrote(ok: bool)

  function Answer(d: Ds, c: Cnf): Step
    requires Sound(d)
  {
    match c
    case Reads(r) => ReadCnf(d, r)
    case Wrote(ok) => WriteCnf(d, ok)
  }

  /** A run of confirmations, from one resting state to the next. */
  function Play(d: Ds, cs: seq<Cnf>): (s: Step)
    decreases |cs|
  {
    if cs == [] || !Sound(d) then (d, [])
    else
      var rest := Play(Answer(d, cs[0]).0, cs[1..]);
      (rest.0, Answer(d, cs[0]).1 + rest.1)
  }

  lemma {:induction false} PlayJoined(d: Ds, a: seq<Cnf>, b: seq<Cnf>)
    requires Sound(Play(d, a).0)
    ensures Play(d, a + b) == (Play(Play(d, a).0, b).0, Play(d, a).1 + Play(Play(d, a).0, b).1)
    decreases |a|
  {
    if a == [] {
      assert a + b == b;
      assert [] + Play(d, b).1 == Play(d, b).1;
    } else if Sound(d) {
      assert (a + b)[1..] == a[1..] + b;
      PlayJoined(Answer(d, a[0]).0, a[1..], b);
      assert Answer(d, a[0]).1 + (Play(Answer(d, a[0]).0, a[1..]).1 + Play(Play(d, a).0, b).1) ==
             Answer(d, a[0]).1 + Play(Answer(d, a[0]).0, a[1..]).1 + Play(Play(d, a).0, b).1;
    }
  }

  lemma Joined<T>(a: seq<T>, b: seq<T>, c: seq<T>)
    ensures a + b + c == a + (b + c)
    ensures a == [] && c == [] ==> a + b == b == b + c
  {
  }

  lemma PlayOne(d: Ds, c: Cnf, g: Ds, outs: seq<Out>)
    requires Sound(d) && Answer(d, c) == (g, outs)
    ensures Play(d, [c]) == (g, outs)
  {
    assert [c][1..] == [];
    assert outs + [] == outs;
  }

  // --- What is stored -----------------------------------------------------------

  type Data = s: seq<byte> | |s| < 256

  /** A parameter of the device and its value. */
  datatype Item = Item(entry: Entry, data: Data)

  function Serialise(items: seq<Item>): seq<byte> {
    if items == [] then []
    else Serialise(items[..|items| - 1]) + Record(items[|items| - 1].entry, items[|items| - 1].data)
  }

  /** The parameters there is room for, in order. */
  function Kept(items: seq<Item>): (kept: seq<Item>)
    ensures |Serialise(kept)| <= StoreSize
  {
    if items == [] then []
    else
      var front, last := Kept(items[..|items| - 1]), items[|items| - 1];
      if HasRoom(|Serialise(front)|, last.data) then
        assert (front + [last])[..|front|] == front;
        front + [last]
      else front
  }

  /** If all parameters fit, all are kept. */
  lemma {:induction false} AllKept(items: seq<Item>)
    requires |Serialise(items)| <= StoreSize
    ensures Kept(items) == items
  {
    if items != [] {
      AllKept(items[..|items| - 1]);
      assert items[..|items| - 1] + [items[|items| - 1]] == items;
    }
  }

  // --- Upload ------------------------------------------------------------------

  /** The reply carries the value of `item`. */
  predicate Carries(r: Reply, item: Item) {
    r.error == NoError && r.Payload() == item.data
  }

  /** `d` waits for the value of item `k`, with those before it stored. */
  predicate Collecting(d: Ds, items: seq<Item>, k: nat)
    requires k < |items|
  {
    && Sound(d) && d.state == ReadParameter && d.current == items[k].entry
    && d.list.pos == k + 1 && d.list.count == |items| <= MaxEntries
    && (forall i :: 0 <= i < |items| ==> d.list.entries[i] == items[i].entry)
    && Holds(d.store, Kept(items[..k]))
  }

  predicate Holds(s: Store, items: seq<Item>)
    requires |s.data| == Memory
  {
    s.pos == |Serialise(items)| <= StoreSize && s.data[..s.pos] == Serialise(items)
  }

  /** All items are stored, and the final checksum is asked for. */
  predicate Collected(d: Ds, items: seq<Item>) {
    && Sound(d) && d.state == StoreDataSet
    && Holds(d.store, Kept(items)) && d.store.size == d.store.pos
  }

  predicate Unlisted(items: seq<Item>) {
    forall i :: 0 <= i < |items| ==> items[i].entry != Entry(DsIndex, SubIndexList)
  }

  lemma StoreKeeps(s: Store, items: seq<Item>, k: nat)
    requires k < |items| && |s.data| == Memory && Holds(s, Kept(items[..k]))
    ensures Holds(StoreRecord(s, items[k].entry, items[k].data), Kept(items[..k + 1]))
  {
    assert items[..k + 1][..k] == items[..k];
    var kept, item := Kept(items[..k]), items[k];
    if HasRoom(s.pos, item.data) {
      assert (kept + [item])[..|kept|] == kept;
    }
  }

  /** With item `k` stored, the next one is asked for. */
  lemma AskNext(d: Ds, items: seq<Item>, k: nat)
    requires k < |items| <= MaxEntries && Sound(d) && d.state == ReadParameter
    requires d.list.pos == k + 1 && d.list.count == |items| && forall i :: 0 <= i < |items| ==> d.list.entries[i] == items[i].entry
    requires Holds(d.store, Kept(items[..k + 1]))
    ensures
      var (g, outs) := NextParameter(d);
      && g.pending == d.pending
      && if k + 1 < |items| then Collecting(g, items, k + 1) && outs == [ReadReq(items[k + 1].entry.index, items[k + 1].entry.subindex)]
         else Collected(g, items) && outs == [ReadReq(DsIndex, SubChecksum)]
  {
    if k + 1 < |items| {
      AskItem(d, items, k);
    } else {
      assert items[..|items|] == items;
    }
  }

  lemma AskItem(d: Ds, items: seq<Item>, k: nat)
    requires k + 1 < |items| <= MaxEntries && Sound(d) && d.state == ReadParameter
    requires d.list.pos == k + 1 && d.list.count == |items| && forall i :: 0 <= i < |items| ==> d.list.entries[i] == items[i].entry
    requires Holds(d.store, Kept(items[..k + 1]))
    ensures
      var (g, outs) := NextParameter(d);
      && g.pending == d.pending && Collecting(g, items, k + 1)
      && outs == [ReadReq(items[k + 1].entry.index, items[k + 1].entry.subindex)]
  {
  }

  lemma CollectNext(d: Ds, items: seq<Item>, k: nat, r: Reply)
    requires k < |items| && Collecting(d, items, k) && Unlisted(items) && Carries(r, items[k])
    ensures
      var (g, outs) := ReadCnf(d, r);
      && g.pending == d.pending
      && if k + 1 < |items| then Collecting(g, items, k + 1) && outs == [ReadReq(items[k + 1].entry.index, items[k + 1].entry.subindex)]
         else Collected(g, items) && outs == [ReadReq(DsIndex, SubChecksum)]
  {
    StoreKeeps(d.store, items, k);
    var store := StoreRecord(d.store, items[k].entry, items[k].data);
    assert ReadCnf(d, r) == NextParameter(d.(store := store));
    AskNext(d.(store := store), items, k);
  }

  /** The requests for the items from `k` on. */
  function Asked(items: seq<Item>, k: nat): seq<Out>
    requires k <= |items|
    decreases |items| - k
  {
    if k == |items| then [] else [ReadReq(items[k].entry.index, items[k].entry.subindex)] + Asked(items, k + 1)
  }

  /** `cs[i]` is the value of item `k + i`. */
  predicate Values(cs: seq<Cnf>, items: seq<Item>, k: nat) {
    |cs| + k == |items| && forall i :: 0 <= i < |cs| ==> cs[i].Reads? && Carries(cs[i].reply, items[k + i])
  }

  lemma {:induction false} CollectRest(d: Ds, items: seq<Item>, k: nat, cs: seq<Cnf>)
    requires k < |items| && Collecting(d, items, k) && Unlisted(items) && Values(cs, items, k)
    ensures
      var (g, outs) := Play(d, cs);
      Collected(g, items) && g.pending == d.pending && outs == Asked(items, k + 1) + [ReadReq(DsIndex, SubChecksum)]
    decreases |items| - k
  {
    var g, outs := CollectRound(d, items, k, cs);
    var last := [ReadReq(DsIndex, SubChecksum)];
    if k + 1 < |items| {
      ValuesRest(cs, items, k);
      CollectRest(g, items, k + 1, cs[1..]);
      Joined(outs, Asked(items, k + 2), last);
    } else {
      assert cs[1..] == [];
      Joined([], last, []);
    }
  }

  lemma ValuesRest(cs: seq<Cnf>, items: seq<Item>, k: nat)
    requires cs != [] && Values(cs, items, k)
    ensures Values(cs[1..], items, k + 1)
  {
  }

  lemma CollectRound(d: Ds, items: seq<Item>, k: nat, cs: seq<Cnf>) returns (g: Ds, outs: seq<Out>)
    requires k < |items| && Collecting(d, items, k) && Unlisted(items) && Values(cs, items, k)
    ensures Play(d, cs) == (Play(g, cs[1..]).0, outs + Play(g, cs[1..]).1) && g.pending == d.pending
    ensures
      if k + 1 < |items| then
        Collecting(g, items, k + 1) && outs == [ReadReq(items[k + 1].entry.index, items[k + 1].entry.subindex)]
      else Collected(g, items) && outs == [ReadReq(DsIndex, SubChecksum)]
  {
    CollectNext(d, items, k, cs[0].reply);
    g, outs := ReadCnf(d, cs[0].reply).0, ReadCnf(d, cs[0].reply).1;
  }

  /** The index list in `raw` names the items, and ends. */
  predicate Lists(raw: Buffer, items: seq<Item>) {
    && |items| < MaxEntries && raw[3 * |items|] == 0 && raw[3 * |items| + 1] == 0
    && forall i :: 0 <= i < |items| ==>
         && BigEndian16(raw[3 * i], raw[3 * i + 1]) == items[i].entry.index > 0
         && raw[3 * i + 2] == items[i].entry.subindex
  }

  lemma {:induction false} ListParses(list: IndexList, raw: Buffer, items: seq<Item>, i: nat)
    requires Lists(raw, items) && i <= |items| && |list.entries| == MaxEntries && list.count <= MaxEntries
    requires forall j :: 0 <= j < i ==> list.entries[j] == items[j].entry
    ensures ParseList(list, raw, i).count == |items|
    ensures forall j :: 0 <= j < |items| ==> ParseList(list, raw, i).entries[j] == items[j].entry
    decreases |items| - i
  {
    if i < |items| {
      assert BigEndian16(raw[3 * i], raw[3 * i + 1]) == items[i].entry.index;
      ListParses(list.(entries := list.entries[i := items[i].entry]), raw, items, i + 1);
    }
  }

  /** The device has sent its index list. */
  lemma Begin(d: Ds, items: seq<Item>, list: Reply)
    requires Sound(d) && d.state == ReadParameter && d.current == Entry(DsIndex, SubIndexList)
    requires d.store.pos == 0 && d.list.pos == 0 && list.error == NoError && Lists(list.raw, items)
    ensures
      var (g, outs) := ReadCnf(d, list);
      && g.pending == d.pending
      && if |items| > 0 then Collecting(g, items, 0) && outs == [ReadReq(items[0].entry.index, items[0].entry.subindex)]
         else Collected(g, items) && outs == [ReadReq(DsIndex, SubChecksum)]
  {
    ListParses(d.list, list.raw, items, 0);
    var l := ParseList(d.list, list.raw, 0);
    assert ReadCnf(d, list) == NextParameter(d.(list := l));
    FirstParameter(d.(list := l), items);
  }

  /** The device has agreed to an upload. */
  lemma Agreed(d: Ds)
    requires Sound(d) && (d.state == CheckUpload || d.state == CheckValidity)
    ensures
      var (g, outs) := WriteCnf(d, true);
      && Sound(g) && g.state == ReadParameter && g.current == Entry(DsIndex, SubIndexList)
      && g.store.pos == 0 && g.list.pos == 0 && g.pending == d.pending && outs == [ReadReq(DsIndex, SubIndexList)]
  {
  }

  lemma FirstParameter(d: Ds, items: seq<Item>)
    requires Sound(d) && d.state == ReadParameter && d.store.pos == 0 && d.list.pos == 0
    requires d.list.count == |items| <= MaxEntries && forall i :: 0 <= i < |items| ==> d.list.entries[i] == items[i].entry
    ensures
      var (g, outs) := NextParameter(d);
      && g.pending == d.pending
      && if |items| > 0 then Collecting(g, items, 0) && outs == [ReadReq(items[0].entry.index, items[0].entry.subindex)]
         else Collected(g, items) && outs == [ReadReq(DsIndex, SubChecksum)]
  {
    assert items[..0] == [] && d.store.data[..0] == [];
  }

  /** The store holds exactly `items`. */
  predicate Stored(s: Store, items: seq<Item>) {
    |s.data| == Memory && s.size == |Serialise(items)| <= StoreSize && s.data[..s.size] == Serialise(items)
  }

  /** A reply to a checksum request that says `n`. */
  predicate Says(checksum: Reply, n: nat) {
    checksum.error != ComError && checksum.len >= 4 && Digits(checksum.raw, n)
  }

  lemma Conclude(d: Ds, items: seq<Item>, checksum: Reply, n: nat)
    requires Collected(d, items) && Says(checksum, n)
    ensures
      var (g, outs) := Play(d, [Reads(checksum), Wrote(true)]);
      && Sound(g) && g.state == Waiting && Stored(g.store, Kept(items))
      && g.store.valid && g.store.id == d.pending && g.store.cs == n
      && outs == [Command(UlEnd), DsReady]
  {
    ReadsDigits(checksum.raw, n);
    var (e, outs) := ReadCnf(d, checksum);
    assert outs == [Command(UlEnd)];
    assert [Reads(checksum), Wrote(true)][1..] == [Wrote(true)];
    PlayOne(e, Wrote(true), WriteCnf(e, true).0, [DsReady]);
  }

  /** Upload. Whatever the device lists and answers, the store then holds the
      parameters there was room for, in the order of the list, and is valid for the
      configured device; each parameter was asked for once. */
  lemma UploadStores(d: Ds, items: seq<Item>, list: Reply, values: seq<Cnf>, checksum: Reply, n: nat)
    requires Sound(d) && (d.state == CheckUpload || d.state == CheckValidity)
    requires list.error == NoError && Lists(list.raw, items) && Unlisted(items) && Values(values, items, 0)
    requires Says(checksum, n)
    ensures
      var (g, outs) := Play(d, [Wrote(true), Reads(list)] + (values + [Reads(checksum), Wrote(true)]));
      && Sound(g) && g.state == Waiting && Stored(g.store, Kept(items))
      && g.store.valid && g.store.id == d.pending && g.store.cs == n
      && outs == [ReadReq(3, 5)] + Asked(items, 0) + [ReadReq(3, 4), Command(2), DsReady]
  {
    Agreed(d);
    var b := WriteCnf(d, true);
    var (c, first) := ReadCnf(b.0, list);
    var end := [Reads(checksum), Wrote(true)];
    PlayTwo(d, Wrote(true), Reads(list), values + end);
    var collected, asked := CollectAll(b.0, items, list, values);
    PlayJoined(c, values, end);
    Conclude(collected, items, checksum, n);
    Arranged(first, asked, items);
  }

  /** The index list and all values have been received. */
  lemma CollectAll(d: Ds, items: seq<Item>, list: Reply, values: seq<Cnf>) returns (g: Ds, asked: seq<Out>)
    requires Sound(d) && d.state == ReadParameter && d.current == Entry(DsIndex, SubIndexList)
    requires d.store.pos == 0 && d.list.pos == 0 && list.error == NoError && Lists(list.raw, items)
    requires Unlisted(items) && Values(values, items, 0)
    ensures
      var (c, first) := ReadCnf(d, list);
      && Play(c, values) == (g, asked) && Collected(g, items) && g.pending == d.pending
      && first + asked == Asked(items, 0) + [ReadReq(DsIndex, SubChecksum)]
  {
    Begin(d, items, list);
    var (c, first) := ReadCnf(d, list);
    g, asked := Play(c, values).0, Play(c, values).1;
    if |items| > 0 {
      CollectRest(c, items, 0, values);
      Joined(first, Asked(items, 1), [ReadReq(DsIndex, SubChecksum)]);
    } else {
      assert values == [] && Play(c, []) == (c, []);
    }
  }

  lemma Arranged(first: seq<Out>, asked: seq<Out>, items: seq<Item>)
    requires first + asked == Asked(items, 0) + [ReadReq(DsIndex, SubChecksum)]
    ensures [ReadReq(DsIndex, SubIndexList)] + (first + (asked + [Command(UlEnd), DsReady])) ==
            [ReadReq(DsIndex, SubIndexList)] + Asked(items, 0) + [ReadReq(DsIndex, SubChecksum), Command(UlEnd), DsReady]
  {
    var end := [Command(UlEnd), DsReady];
    assert first + (asked + end) == (first + asked) + end;
  }

  lemma PlayTwo(d: Ds, a: Cnf, b: Cnf, tail: seq<Cnf>)
    requires Sound(d) && Sound(Answer(d, a).0)
    ensures
      var e := Answer(d, a);
      var g := Answer(e.0, b);
      Play(d, [a, b] + tail) == (Play(g.0, tail).0, e.1 + (g.1 + Play(g.0, tail).1))
  {
    assert ([a, b] + tail)[1..] == [b] + tail;
    assert ([b] + tail)[1..] == tail;
  }

  // --- Download ----------------------------------------------------------------

  lemma {:induction false} SerialisePrefix(items: seq<Item>, k: nat)
    requires k <= |items|
    ensures |Serialise(items[..k])| <= |Serialise(items)|
    ensures Serialise(items)[..|Serialise(items[..k])|] == Serialise(items[..k])
    decreases |items|
  {
    if k == |items| {
      assert items[..k] == items;
    } else {
      var front := items[..|items| - 1];
      assert front[..k] == items[..k];
      SerialisePrefix(front, k);
    }
  }

  /** Item `k` of the store, where it stands. */
  lemma RecordAt(s: Store, items: seq<Item>, k: nat)
    requires k < |items| && Stored(s, items)
    ensures
      var p, r := |Serialise(items[..k])|, Record(items[k].entry, items[k].data);
      p + |r| <= s.size && s.data[p..p + |r|] == r && |Serialise(items[..k + 1])| == p + |r|
  {
    SerialisePrefix(items, k + 1);
    assert items[..k + 1][..k] == items[..k];
    var p, r := |Serialise(items[..k])|, Record(items[k].entry, items[k].data);
    assert Serialise(items[..k + 1]) == Serialise(items[..k]) + r;
    assert s.data[..s.size][..p + |r|] == s.data[..p + |r|];
    assert s.data[..p + |r|][p..] == s.data[p..p + |r|];
  }

  function Written(item: Item): Out {
    WriteReq(item.entry.index, item.entry.subindex, item.data)
  }

  /** Parsing the record at the position gives the item that was stored there. */
  lemma WritesItem(d: Ds, items: seq<Item>, k: nat)
    requires Valid(d) && k < |items| && Stored(d.store, items) && d.store.pos == |Serialise(items[..k])|
    ensures d.store.pos < d.store.size && WriteNext(d).1 == [Written(items[k])]
    ensures WriteNext(d).0.store == d.store.(pos := |Serialise(items[..k + 1])|)
  {
    RecordAt(d.store, items, k);
    ReadsRecord(d.store.data, d.store.pos, items[k].entry, items[k].data);
  }

  lemma ReadsRecord(m: seq<byte>, p: nat, e: Entry, data: Data)
    requires p + 4 + |data| <= |m| && m[p..p + 4 + |data|] == Record(e, data)
    ensures BigEndian16(m[p], m[p + 1]) == e.index && m[p + 2] == e.subindex
    ensures m[p + 3] == |data| && m[p + 4..p + 4 + m[p + 3]] == data
  {
    var r := m[p..p + 4 + |data|];
    assert r[0] == m[p] && r[1] == m[p + 1] && r[2] == m[p + 2] && r[3] == m[p + 3];
    assert r[4..] == m[p + 4..p + 4 + |data|] && Record(e, data)[4..] == data;
  }

  predicate AllWrote(cs: seq<Cnf>) {
    forall i :: 0 <= i < |cs| ==> cs[i] == Wrote(true)
  }

  /** `d` waits for the confirmation of item `k - 1`, those before it written; the
      start of the download counts as the first. */
  predicate Replaying(d: Ds, items: seq<Item>, k: nat)
    requires k <= |items|
  {
    && Sound(d) && Stored(d.store, items)
    && if k == 0 then d.state == DecomposeSet else d.state == WriteParameter && d.store.pos == |Serialise(items[..k])|
  }

  lemma WriteBackNext(d: Ds, items: seq<Item>, k: nat)
    requires k <= |items| && Replaying(d, items, k)
    ensures
      var (g, outs) := WriteCnf(d, true);
      if k < |items| then
        && Replaying(g, items, k + 1) && outs == [Written(items[k])]
        && g.store.pos > (if k == 0 then 0 else d.store.pos)
      else Sound(g) && g.state == DownloadDone && Stored(g.store, items) && outs == [Command(DlEnd)]
  {
    var pos := if k == 0 then 0 else d.store.pos;
    Acknowledged(d, pos);
    assert items[..0] == [] && items[..|items|] == items;
    if k < |items| {
      WritesItem(d.(store := d.store.(pos := pos)), items, k);
    }
  }

  lemma Acknowledged(d: Ds, pos: nat)
    requires Sound(d)
    requires (d.state == DecomposeSet && pos == 0) || (d.state == WriteParameter && pos == d.store.pos)
    ensures WriteCnf(d, true) == Replay(d, pos)
  {
  }

  function WrittenFrom(items: seq<Item>, k: nat): seq<Out>
    requires k <= |items|
    decreases |items| - k
  {
    if k == |items| then [] else [Written(items[k])] + WrittenFrom(items, k + 1)
  }

  lemma {:induction false} WriteBackRest(d: Ds, items: seq<Item>, k: nat, cs: seq<Cnf>)
    requires k <= |items| && Replaying(d, items, k) && |cs| == |items| - k + 1 && AllWrote(cs)
    ensures
      var (g, outs) := Play(d, cs);
      Sound(g) && g.state == DownloadDone && Stored(g.store, items) && outs == WrittenFrom(items, k) + [Command(DlEnd)]
    decreases |items| - k
  {
    var g, outs := WriteBackRound(d, items, k, cs);
    if k < |items| {
      WriteBackRest(g, items, k + 1, cs[1..]);
      Joined(outs, WrittenFrom(items, k + 1), [Command(DlEnd)]);
    } else {
      assert Play(g, cs[1..]) == (g, []);
      Joined([], [Command(DlEnd)], []);
    }
  }

  lemma WriteBackRound(d: Ds, items: seq<Item>, k: nat, cs: seq<Cnf>) returns (g: Ds, outs: seq<Out>)
    requires k <= |items| && Replaying(d, items, k) && cs != [] && cs[0] == Wrote(true)
    ensures Play(d, cs) == (Play(g, cs[1..]).0, outs + Play(g, cs[1..]).1)
    ensures
      if k < |items| then Replaying(g, items, k + 1) && outs == [Written(items[k])]
      else Sound(g) && g.state == DownloadDone && Stored(g.store, items) && outs == [Command(DlEnd)]
  {
    WriteBackNext(d, items, k);
    g, outs := WriteCnf(d, true).0, WriteCnf(d, true).1;
  }

  lemma FinishDownload(d: Ds, items: seq<Item>, checksum: Reply)
    requires Sound(d) && d.state == DownloadDone && Stored(d.store, items) && checksum.error != ComError && checksum.len >= 4
    ensures
      var (g, outs) := Play(d, [Wrote(true), Reads(checksum)]);
      g.state == Waiting && Stored(g.store, items) && outs == [ReadReq(DsIndex, SubChecksum), DsReady]
  {
    var e := WriteCnf(d, true).0;
    assert [Wrote(true), Reads(checksum)][1..] == [Reads(checksum)];
    assert ReadCnf(e, checksum).1 == [] + [DsReady] == [DsReady];
    PlayOne(e, Reads(checksum), ReadCnf(e, checksum).0, [DsReady]);
  }

  /** Download. From a store that holds `items`, a download writes exactly those, in
      their order, between its two commands, and ends ready. */
  lemma DownloadWritesBack(d: Ds, items: seq<Item>, cs: seq<Cnf>, checksum: Reply)
    requires Sound(d) && d.state == DecomposeSet && Stored(d.store, items)
    requires |cs| == |items| + 1 && AllWrote(cs)
    requires checksum.error != ComError && checksum.len >= 4
    ensures
      var (g, outs) := Play(d, cs + [Wrote(true), Reads(checksum)]);
      && g.state == Waiting && Stored(g.store, items)
      && outs == WrittenFrom(items, 0) + [Command(4)] + [ReadReq(3, 4), DsReady]
  {
    WriteBackRest(d, items, 0, cs);
    PlayJoined(d, cs, [Wrote(true), Reads(checksum)]);
    FinishDownload(Play(d, cs).0, items, checksum);
  }

  /** Backup and restore: what a download writes after an upload is what that upload
      read, as far as there was room, in the same order. */
  lemma RestoreIsBackup(d: Ds, items: seq<Item>, list: Reply, values: seq<Cnf>, checksum: Reply, n: nat,
                        e: Ds, cs: seq<Cnf>, later: Reply)
    requires Sound(d) && (d.state == CheckUpload || d.state == CheckValidity)
    requires list.error == NoError && Lists(list.raw, items) && Unlisted(items) && Values(values, items, 0)
    requires Says(checksum, n) && later.error != ComError && later.len >= 4
    requires Sound(e) && e.state == DecomposeSet
    requires e.store == Play(d, [Wrote(true), Reads(list)] + (values + [Reads(checksum), Wrote(true)])).0.store
    requires |cs| == |Kept(items)| + 1 && AllWrote(cs)
    ensures Play(e, cs + [Wrote(true), Reads(later)]).1 ==
            WrittenFrom(Kept(items), 0) + [Command(4)] + [ReadReq(3, 4), DsReady]
    ensures |Serialise(items)| <= StoreSize ==> Kept(items) == items
  {
    UploadStores(d, items, list, values, checksum, n);
    DownloadWritesBack(e, Kept(items), cs, later);
    if |Serialise(items)| <= StoreSize {
      AllKept(items);
    }
  }

  // --- From one startup to the next ---------------------------------------------------

  /** The replies that lead a startup past its checks of size and state property. */
  predicate Passes(size: Reply, bytes: nat, property: Reply, upload: bool) {
    && size.error == NoError && size.len >= 4 && Digits(size.raw, bytes) && bytes <= 2048
    && property.error == NoError && property.len == 1 && !Locked(property.raw[0])
    && !(property.raw[0] >= 0x80 && upload)
  }

  /** The device that is connected is the one whose set is stored. */
  predicate Recognised(d: Ds) {
    d.store.id.vendor == 0 || d.store.id == d.port
  }

  /** The size decides: up to 2048 bytes the state property is asked for, above that
      the startup fails. */
  lemma SizeChecked(d: Ds, size: Reply, bytes: nat)
    requires Sound(d) && d.state == CheckIdentity && size.error == NoError && size.len >= 4 && Digits(size.raw, bytes)
    ensures
      var (g, outs) := ReadCnf(d, size);
      && Sound(g) && g.store == d.store && g.upload == d.upload && g.download == d.download
      && if bytes <= 2048 then g.state == CheckMemSize && outs == [ReadReq(DsIndex, SubState)]
         else g.state == Waiting && outs == [DsFault(SizeFault)]
  {
    ReadsDigits(size.raw, bytes);
  }

  lemma PropertyChecked(d: Ds, property: Reply)
    requires Sound(d) && d.state == CheckMemSize && property.error == NoError && property.len == 1
    requires !Locked(property.raw[0]) && !(property.raw[0] >= 0x80 && d.upload)
    ensures
      var (g, outs) := ReadCnf(d, property);
      && Sound(g) && g.state == CheckUpload && g.store == d.store && outs == [ReadReq(DsIndex, SubChecksum)]
      && g.upload == d.upload && g.download == d.download
  {
  }

  lemma SetsCompared(d: Ds, cs: Reply, n: nat)
    requires Sound(d) && d.state == CheckUpload && d.store.valid && Says(cs, n)
    ensures
      var (g, outs) := ReadCnf(d, cs);
      && Sound(g) && g.store == d.store
      && if d.download && d.store.cs != n then g.state == DecomposeSet && outs == [Command(DlStart)]
         else g.state == Waiting && outs == [DsReady]
  {
    ReadsDigits(cs.raw, n);
    assert [] + [Command(DlStart)] == [Command(DlStart)] && [] + [DsReady] == [DsReady];
  }

  /** A startup with a valid set of the device: it leads to a download if and only if
      the port is configured for one and the device's checksum is another. */
  lemma StartupCompares(d: Ds, size: Reply, bytes: nat, property: Reply, cs: Reply, n: nat)
    requires Sound(d) && d.state == Waiting && d.store.valid && Recognised(d)
    requires Passes(size, bytes, property, d.upload) && Says(cs, n)
    ensures
      var (s, first) := React(d, Startup);
      var (e, outs) := Play(s, [Reads(size), Reads(property), Reads(cs)]);
      && Sound(s) && first == [ReadReq(DsIndex, SubSize)] && Sound(e) && e.store == d.store
      && if d.download && d.store.cs != n then
           e.state == DecomposeSet && outs == [ReadReq(DsIndex, SubState), ReadReq(DsIndex, SubChecksum), Command(DlStart)]
         else e.state == Waiting && outs == [ReadReq(DsIndex, SubState), ReadReq(DsIndex, SubChecksum), DsReady]
  {
    var s := React(d, Startup).0;
    SizeChecked(s, size, bytes);
    var t := ReadCnf(s, size).0;
    PropertyChecked(t, property);
    var u := ReadCnf(t, property).0;
    SetsCompared(u, cs, n);
    var (e, last) := ReadCnf(u, cs);
    PlayTwo(s, Reads(size), Reads(property), [Reads(cs)]);
    PlayOne(u, Reads(cs), e, last);
    assert [Reads(size), Reads(property)] + [Reads(cs)] == [Reads(size), Reads(property), Reads(cs)];
  }

  /** Backup and restore, from startup to startup. After an upload the port starts up
      with the device again, or with another of its kind that shows another checksum:
      what is written is what the upload read, as far as there was room. */
  lemma RestoredAtNextStartup(d: Ds, items: seq<Item>, list: Reply, values: seq<Cnf>, checksum: Reply, n: nat, g: Ds,
                              size: Reply, bytes: nat, property: Reply, cs: Reply, k: nat, writes: seq<Cnf>, later: Reply)
    requires Sound(d) && (d.state == CheckUpload || d.state == CheckValidity)
    requires list.error == NoError && Lists(list.raw, items) && Unlisted(items) && Values(values, items, 0)
    requires Says(checksum, n)
    requires Sound(g) && g.state == Waiting && g.download && Recognised(g)
    requires g.store == Play(d, [Wrote(true), Reads(list)] + (values + [Reads(checksum), Wrote(true)])).0.store
    requires Passes(size, bytes, property, g.upload) && Says(cs, k) && k != n
    requires |writes| == |Kept(items)| + 1 && AllWrote(writes) && later.error != ComError && later.len >= 4
    ensures
      var (s, first) := React(g, Startup);
      && first == [ReadReq(3, 3)]
      && Play(s, [Reads(size), Reads(property), Reads(cs)] + (writes + [Wrote(true), Reads(later)])).1 ==
         [ReadReq(3, 2), ReadReq(3, 4), Command(3)] +
         (WrittenFrom(Kept(items), 0) + [Command(4)] + [ReadReq(3, 4), DsReady])
  {
    UploadStores(d, items, list, values, checksum, n);
    RestoredFrom(g, Kept(items), size, bytes, property, cs, k, writes, later);
  }

  lemma RestoredFrom(g: Ds, kept: seq<Item>, size: Reply, bytes: nat, property: Reply, cs: Reply, k: nat, writes: seq<Cnf>,
                     later: Reply)
    requires Sound(g) && g.state == Waiting && g.download && g.store.valid && Recognised(g) && Stored(g.store, kept)
    requires Passes(size, bytes, property, g.upload) && Says(cs, k) && k != g.store.cs
    requires |writes| == |kept| + 1 && AllWrote(writes) && later.error != ComError && later.len >= 4
    ensures
      var (s, first) := React(g, Startup);
      && first == [ReadReq(3, 3)]
      && Play(s, [Reads(size), Reads(property), Reads(cs)] + (writes + [Wrote(true), Reads(later)])).1 ==
         [ReadReq(3, 2), ReadReq(3, 4), Command(3)] +
         (WrittenFrom(kept, 0) + [Command(4)] + [ReadReq(3, 4), DsReady])
  {
    StartupCompares(g, size, bytes, property, cs, k);
    var s, checks := React(g, Startup).0, [Reads(size), Reads(property), Reads(cs)];
    DownloadWritesBack(Play(s, checks).0, kept, writes, later);
    PlayJoined(s, checks, writes + [Wrote(true), Reads(later)]);
  }
}
