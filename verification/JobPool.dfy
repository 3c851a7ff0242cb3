/** The jobs of a master and its mailboxes: threads take jobs from two pools, fill
    and post them, and the main thread runs them and returns them. */
module JobPool {
  import opened Bytes

  const InternalJobs: nat := 40
  const ApiJobs: nat := 10

  /** Which pool a job is returned to, as its type tells. */
  datatype Kind = Internal | Api

  datatype Job = Job(id: nat, kind: Kind)

  /** A mailbox holds jobs in the order of posting; `taken` are with threads that
      fill them, and `running` with the main thread. `posted` and `done` are all
      jobs ever posted, and ever run to their end. */
  datatype Pools = Pools(
    avail: seq<nat>,
    apiAvail: seq<nat>,
    mbox: seq<Job>,
    taken: multiset<Job>,
    running: Option<Job>,
    posted: seq<Job>,
    done: seq<Job>)

  datatype Action = Take(kind: Kind) | Post(job: Job) | Run | Finish

  function Available(p: Pools, k: Kind): seq<nat> {
    if k == Internal then p.avail else p.apiAvail
  }

  function PoolSize(k: Kind): nat {
    if k == Internal then InternalJobs else ApiJobs
  }

  /** A thread takes a job only where the source does not assert: one is left. It
      posts a job with a type of the pool the job is from. */
  predicate Possible(p: Pools, a: Action) {
    match a
    case Take(k) => Available(p, k) != []
    case Post(j) => j in p.taken
    case Run => p.running.None? && p.mbox != []
    case Finish => p.running.Some?
  }

  function Step(p: Pools, a: Action): Pools
    requires Possible(p, a)
  {
    match a
    case Take(Internal) => p.(avail := p.avail[1..], taken := p.taken + multiset{Job(p.avail[0], Internal)})
    case Take(Api) => p.(apiAvail := p.apiAvail[1..], taken := p.taken + multiset{Job(p.apiAvail[0], Api)})
    case Post(j) => p.(mbox := p.mbox + [j], taken := p.taken - multiset{j}, posted := p.posted + [j])
    case Run => p.(mbox := p.mbox[1..], running := Some(p.mbox[0]))
    case Finish =>
      var j := p.running.value;
      var q := p.(running := None, done := p.done + [j]);
      if j.kind == Internal then q.(avail := q.avail + [j.id]) else q.(apiAvail := q.apiAvail + [j.id])
  }

  function Initial(): Pools {
    Pools(seq(InternalJobs, i => i), seq(ApiJobs, i => i), [], multiset{}, None, [], [])
  }

  /** Where job `j` is: how often in all places together. */
  function Places(p: Pools, j: Job): nat {
    multiset(Available(p, j.kind))[j.id] + multiset(p.mbox)[j] + p.taken[j] + if p.running == Some(j) then 1 else 0
  }

  function InFlight(p: Pools): seq<Job> {
    if p.running.Some? then [p.running.value] + p.mbox else p.mbox
  }

  /** Every job is in exactly one place; those posted are those done, then the one
      that runs, then those in the mailbox, in that order. */
  ghost predicate Conserved(p: Pools) {
    && (forall j: Job :: Places(p, j) == if j.id < PoolSize(j.kind) then 1 else 0)
    && p.posted == p.done + InFlight(p)
  }

  lemma InitiallyConserved()
    ensures Conserved(Initial())
  {
    forall j: Job ensures Places(Initial(), j) == if j.id < PoolSize(j.kind) then 1 else 0 {
      CountsOnce(PoolSize(j.kind), j.id);
    }
  }

  lemma {:induction false} CountsOnce(n: nat, x: nat)
    ensures multiset(seq(n, i => i))[x] == if x < n then 1 else 0
    decreases n
  {
    var s := seq(n, i => i);
    if n > 0 {
      CountsOnce(n - 1, x);
      assert s == seq(n - 1, i => i) + [n - 1];
    }
  }

  lemma TakeKeepsPlaces(p: Pools, k: Kind, j: Job)
    requires Possible(p, Take(k))
    ensures Places(Step(p, Take(k)), j) == Places(p, j)
  {
    var s := Available(p, k);
    assert s == [s[0]] + s[1..];
    assert multiset(s) == multiset{s[0]} + multiset(s[1..]);
  }

  lemma PostKeepsPlaces(p: Pools, x: Job, j: Job)
    requires Possible(p, Post(x))
    ensures Places(Step(p, Post(x)), j) == Places(p, j)
  {
    assert multiset(p.mbox + [x]) == multiset(p.mbox) + multiset{x};
  }

  lemma RunKeepsPlaces(p: Pools, j: Job)
    requires Possible(p, Run)
    ensures Places(Step(p, Run), j) == Places(p, j)
  {
    assert p.mbox == [p.mbox[0]] + p.mbox[1..];
    assert multiset(p.mbox) == multiset{p.mbox[0]} + multiset(p.mbox[1..]);
  }

  lemma FinishKeepsPlaces(p: Pools, j: Job)
    requires Possible(p, Finish)
    ensures Places(Step(p, Finish), j) == Places(p, j)
  {
    var x := p.running.value;
    assert multiset(Available(p, x.kind) + [x.id]) == multiset(Available(p, x.kind)) + multiset{x.id};
  }

  lemma StepKeepsOrder(p: Pools, a: Action)
    requires p.posted == p.done + InFlight(p) && Possible(p, a)
    ensures Step(p, a).posted == Step(p, a).done + InFlight(Step(p, a))
  {
    match a
    case Take(_) =>
    case Post(x) => assert p.done + InFlight(p) + [x] == p.done + (InFlight(p) + [x]);
    case Run => assert [p.mbox[0]] + p.mbox[1..] == p.mbox;
    case Finish => assert p.done + ([p.running.value] + p.mbox) == p.done + [p.running.value] + p.mbox;
  }

  /** Every step of every thread keeps every job in exactly one place, returns it to
      its own pool, and runs jobs once each, in the order of posting. */
  lemma StepConserves(p: Pools, a: Action)
    requires Conserved(p) && Possible(p, a)
    ensures Conserved(Step(p, a))
  {
    forall j: Job ensures Places(Step(p, a), j) == Places(p, j) {
      match a
      case Take(k) => TakeKeepsPlaces(p, k, j);
      case Post(x) => PostKeepsPlaces(p, x, j);
      case Run => RunKeepsPlaces(p, j);
      case Finish => FinishKeepsPlaces(p, j);
    }
    StepKeepsOrder(p, a);
  }

  predicate AllPossible(p: Pools, actions: seq<Action>)
    decreases |actions|
  {
    actions != [] ==> Possible(p, actions[0]) && AllPossible(Step(p, actions[0]), actions[1..])
  }

  function Play(p: Pools, actions: seq<Action>): Pools
    requires AllPossible(p, actions)
    decreases |actions|
  {
    if actions == [] then p else Play(Step(p, actions[0]), actions[1..])
  }

  /** So it is after any interleaving of any number of threads. */
  lemma {:induction false} RunConserves(p: Pools, actions: seq<Action>)
    requires Conserved(p) && AllPossible(p, actions)
    ensures Conserved(Play(p, actions))
    decreases |actions|
  {
    if actions != [] {
      StepConserves(p, actions[0]);
      RunConserves(Step(p, actions[0]), actions[1..]);
    }
  }

  // --- No mailbox overflows --------------------------------------------------------

  function Numbered(n: nat, k: Kind): seq<Job> {
    seq(n, (i: nat) => Job(i, k))
  }

  function AllJobs(): seq<Job> {
    Numbered(InternalJobs, Internal) + Numbered(ApiJobs, Api)
  }

  lemma {:induction false} JobsOnce(n: nat, k: Kind, j: Job)
    ensures multiset(Numbered(n, k))[j] == if j.id < n && j.kind == k then 1 else 0
    decreases n
  {
    if n > 0 {
      JobsOnce(n - 1, k, j);
      assert Numbered(n, k) == Numbered(n - 1, k) + [Job(n - 1, k)];
    }
  }

  lemma Smaller<T>(a: multiset<T>, b: multiset<T>)
    requires forall x :: a[x] <= b[x]
    ensures |a| <= |b|
  {
    assert b == a + (b - a);
  }

  /** The mailbox has room for every job, so a post never finds it full. */
  lemma PostNeverFindsMailboxFull(p: Pools, j: Job)
    requires Conserved(p) && Possible(p, Post(j))
    ensures |p.mbox| < InternalJobs + ApiJobs
  {
    var queued := multiset(p.mbox) + multiset{j};
    forall x: Job ensures queued[x] <= multiset(AllJobs())[x] {
      JobsOnce(InternalJobs, Internal, x);
      JobsOnce(ApiJobs, Api, x);
      assert queued[x] <= Places(p, x);
    }
    Smaller(queued, multiset(AllJobs()));
    assert |queued| == |p.mbox| + 1;
  }

  /** And the pool a job is returned to has room for it. */
  lemma ReturnNeverFindsPoolFull(p: Pools)
    requires Conserved(p) && Possible(p, Finish)
    ensures |Available(p, p.running.value.kind)| < PoolSize(p.running.value.kind)
  {
    var x := p.running.value;
    var back, n := multiset(Available(p, x.kind)) + multiset{x.id}, PoolSize(x.kind);
    forall i: nat ensures back[i] <= multiset(seq(n, k => k))[i] {
      CountsOnce(n, i);
      assert back[i] <= Places(p, Job(i, x.kind));
    }
    Smaller(back, multiset(seq(n, k => k)));
    assert |back| == |Available(p, x.kind)| + 1;
  }

  /** The mailboxes of a master as they stand in memory. */
  class Master {
    var avail: seq<nat>
    var apiAvail: seq<nat>
    var mbox: seq<Job>
    var running: Option<Job>
    ghost var taken: multiset<Job>
    ghost var posted: seq<Job>
    ghost var done: seq<Job>

    ghost function View(): Pools
      reads this
    {
      Pools(avail, apiAvail, mbox, taken, running, posted, done)
    }

    constructor ()
      ensures View() == Initial() && Conserved(View())
    {
      avail, apiAvail := seq(InternalJobs, i => i), seq(ApiJobs, i => i);
      mbox, running, taken, posted, done := [], None, multiset{}, [], [];
      InitiallyConserved();
    }

    /** iolink_fetch_avail_job and iolink_fetch_avail_api_job. */
    method Fetch(k: Kind) returns (j: Job)
      requires Conserved(View()) && Possible(View(), Take(k))
      modifies this
      ensures Conserved(View()) && View() == Step(old(View()), Take(k))
      ensures taken == old(taken) + multiset{j} && j.kind == k
    {
      StepConserves(View(), Take(k));
      ghost var next := Step(View(), Take(k));
      if k == Internal {
        j := Job(avail[0], Internal);
        avail := avail[1..];
      } else {
        j := Job(apiAvail[0], Api);
        apiAvail := apiAvail[1..];
      }
      taken := taken + multiset{j};
      assert View() == next;
    }

    /** Posting never fails. */
    method PostJob(j: Job)
      requires Conserved(View()) && Possible(View(), Post(j))
      modifies this
      ensures Conserved(View()) && View() == Step(old(View()), Post(j)) && |mbox| <= InternalJobs + ApiJobs
    {
      StepConserves(View(), Post(j));
      PostNeverFindsMailboxFull(View(), j);
      mbox := mbox + [j];
      taken, posted := taken - multiset{j}, posted + [j];
    }

    /** The main thread takes the next job from the mailbox. */
    method RunNext() returns (j: Job)
      requires Conserved(View()) && Possible(View(), Run)
      modifies this
      ensures Conserved(View()) && View() == Step(old(View()), Run) && running == Some(j)
    {
      StepConserves(View(), Run);
      j := mbox[0];
      mbox, running := mbox[1..], Some(j);
    }

    /** The callback has returned: the job goes back to the pool its type names. */
    method Return()
      requires Conserved(View()) && Possible(View(), Finish)
      modifies this
      ensures Conserved(View()) && View() == Step(old(View()), Finish)
    {
      StepConserves(View(), Finish);
      var j := running.value;
      running, done := None, done + [j];
      match j.kind
      case Internal => avail := avail + [j.id];
      case Api => apiAvail := apiAvail + [j.id];
    }
  }
}
