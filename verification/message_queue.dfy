/** The per-connection `MessageQueue` of server/index.js: a FIFO of jobs
    of which at most `maxConcurrency` run at once. Jobs are numbered in
    submission order; what a job does is not represented, only that it
    was started and how it settled. The two events are `add` and the
    settling of a running job, which runs `finally` and dispatches again. */
module MessageQueue {
  import opened Js

  const DefaultMaxConcurrency := 3

  /** How a job's promise ended. */
  datatype Settled = Settled(job: nat, ok: bool)

  datatype Queue = Queue(
    maxConcurrency: int,
    waiting: seq<nat>,
    running: int,
    inFlight: seq<nat>,
    started: seq<nat>,
    finished: seq<Settled>,
    submitted: nat)

  /** `new MessageQueue(maxConcurrency)` */
  function NewQueue(maxConcurrency: int): (q: Queue)
    ensures Inv(q) && q.submitted == 0
  {
    Queue(maxConcurrency, [], 0, [], [], [], 0)
  }

  /** 0, 1, ..., n - 1 */
  function Iota(n: nat): (r: seq<nat>)
    ensures |r| == n && forall i :: 0 <= i < n ==> r[i] == i
  {
    if n == 0 then [] else Iota(n - 1) + [n - 1]
  }

  function Jobs(fs: seq<Settled>): seq<nat> {
    seq(|fs|, i requires 0 <= i < |fs| => fs[i].job)
  }

  /** `s` without the first occurrence of `x`. */
  function Remove(s: seq<nat>, x: nat): (r: seq<nat>)
    ensures x in s ==> |r| == |s| - 1
    ensures forall y :: y in r ==> y in s
  {
    if |s| == 0 then []
    else if s[0] == x then s[1..]
    else [s[0]] + Remove(s[1..], x)
  }

  /** What every reachable queue satisfies:
      - `running` counts the jobs started and not yet settled;
      - it never exceeds the limit (nothing runs at all under a limit below
        one);
      - jobs start in submission order: the started ones followed by the
        waiting ones are all jobs in order;
      - every started job is either in flight or settled, never both;
      - no job waits while a slot is free. */
  ghost predicate Inv(q: Queue) {
    && q.running == |q.inFlight|
    && (q.running == 0 || q.running <= q.maxConcurrency)
    && q.started + q.waiting == Iota(q.submitted)
    && |q.started| == |q.inFlight| + |q.finished|
    && Distinct(q.inFlight)
    && (forall j :: j in q.inFlight ==> j in q.started && j !in Jobs(q.finished))
    && (forall j :: j in Jobs(q.finished) ==> j in q.started)
    && (q.running < q.maxConcurrency ==> |q.waiting| == 0)
  }

  /** `process()`: start the job at the head when a slot is free. */
  function Process(q: Queue): Queue {
    if q.running >= q.maxConcurrency || |q.waiting| == 0 then q
    else
      var job := q.waiting[0];
      q.(running := q.running + 1, waiting := q.waiting[1..], inFlight := q.inFlight + [job], started := q.started + [job])
  }

  /** `add(fn)`: the job goes to the tail, then a dispatch. */
  function Add(q: Queue): Queue {
    Process(q.(waiting := q.waiting + [q.submitted], submitted := q.submitted + 1))
  }

  /** The promise of running job `job` settles: it is resolved or rejected,
      `finally` frees its slot and dispatches again. Only running jobs
      settle; any other event changes nothing. */
  function Settle(q: Queue, job: nat, ok: bool): Queue {
    if job !in q.inFlight then q
    else Process(q.(running := q.running - 1, inFlight := Remove(q.inFlight, job), finished := q.finished + [Settled(job, ok)]))
  }

  datatype Event = AddJob | SettleJob(job: nat, ok: bool)

  function Step(q: Queue, e: Event): Queue {
    match e
    case AddJob => Add(q)
    case SettleJob(j, ok) => Settle(q, j, ok)
  }

  function Run(q: Queue, es: seq<Event>): Queue
    decreases |es|
  {
    if |es| == 0 then q else Run(Step(q, es[0]), es[1..])
  }

  /** `getStats()` */
  datatype Stats = Stats(running: int, queued: int, total: int)

  /** The total the stats report is the number of jobs submitted and not
      yet settled. */
  function GetStats(q: Queue): (s: Stats)
    requires Inv(q)
    ensures s.running == |q.inFlight| && s.queued == |q.waiting|
    ensures s.total == q.submitted - |q.finished|
  {
    assert |q.started + q.waiting| == q.submitted;
    Stats(q.running, |q.waiting|, q.running + |q.waiting|)
  }

  lemma {:induction false} IotaDistinct(n: nat, i: nat, j: nat)
    requires i < j < n
    ensures Iota(n)[i] != Iota(n)[j]
  {
  }

  lemma {:induction false} RemoveFacts(s: seq<nat>, x: nat)
    requires Distinct(s) && x in s
    ensures Distinct(Remove(s, x)) && x !in Remove(s, x)
    ensures forall y :: y in s && y != x ==> y in Remove(s, x)
  {
    assert s == [s[0]] + s[1..];
    forall k | 0 <= k < |s[1..]|
      ensures s[1..][k] != s[0]
    {
      assert s[1..][k] == s[k + 1];
    }
    assert s[0] !in s[1..];
    assert Distinct(s[1..]) by {
      forall i, j | 0 <= i < j < |s[1..]|
        ensures s[1..][i] != s[1..][j]
      {
        assert s[1..][i] == s[i + 1] && s[1..][j] == s[j + 1];
      }
    }
    if s[0] != x {
      var r := Remove(s[1..], x);
      RemoveFacts(s[1..], x);
      assert Remove(s, x) == [s[0]] + r;
      assert s[0] !in r;
      forall i, j | 0 <= i < j < |[s[0]] + r|
        ensures ([s[0]] + r)[i] != ([s[0]] + r)[j]
      {
        if i > 0 {
          assert ([s[0]] + r)[i] == r[i - 1] && ([s[0]] + r)[j] == r[j - 1];
        } else {
          assert ([s[0]] + r)[j] == r[j - 1];
        }
      }
    }
  }

  /** The job at the head of the waiting line has never started. */
  lemma HeadNotStarted(q: Queue)
    requires q.started + q.waiting == Iota(q.submitted) && |q.waiting| > 0
    requires forall j :: j in q.inFlight ==> j in q.started
    requires forall j :: j in Jobs(q.finished) ==> j in q.started
    ensures q.waiting[0] !in q.started && q.waiting[0] !in q.inFlight && q.waiting[0] !in Jobs(q.finished)
  {
    var all := q.started + q.waiting;
    var k := |q.started|;
    assert all[k] == q.waiting[0];
    forall i | 0 <= i < |q.started|
      ensures q.started[i] != q.waiting[0]
    {
      assert all[i] == q.started[i];
      IotaDistinct(q.submitted, i, k);
    }
  }

  lemma JobsAppend(fs: seq<Settled>, s: Settled)
    ensures Jobs(fs + [s]) == Jobs(fs) + [s.job]
  {
  }

  /** A dispatch keeps the invariant once the free-slot clause may have
      been broken by one. */
  lemma ProcessInv(q: Queue)
    requires q.running == |q.inFlight|
    requires q.running == 0 || q.running <= q.maxConcurrency
    requires q.started + q.waiting == Iota(q.submitted)
    requires |q.started| == |q.inFlight| + |q.finished|
    requires Distinct(q.inFlight)
    requires forall j :: j in q.inFlight ==> j in q.started && j !in Jobs(q.finished)
    requires forall j :: j in Jobs(q.finished) ==> j in q.started
    requires q.running + 1 < q.maxConcurrency ==> |q.waiting| <= 1
    ensures Inv(Process(q))
  {
    if !(q.running >= q.maxConcurrency || |q.waiting| == 0) {
      var job := q.waiting[0];
      var p := Process(q);
      assert p.started + p.waiting == q.started + q.waiting by {
        assert q.waiting == [job] + q.waiting[1..];
      }
      HeadNotStarted(q);
      forall j | j in p.inFlight
        ensures j in p.started && j !in Jobs(p.finished)
      {
        if j != job {
          assert j in q.inFlight;
        }
      }
    }
  }

  /** `add` keeps the invariant. */
  lemma AddInv(q: Queue)
    requires Inv(q)
    ensures Inv(Add(q))
  {
    var p := q.(waiting := q.waiting + [q.submitted], submitted := q.submitted + 1);
    assert p.started + p.waiting == (q.started + q.waiting) + [q.submitted];
    ProcessInv(p);
  }

  /** Settling a running job keeps the invariant. */
  lemma SettleInv(q: Queue, job: nat, ok: bool)
    requires Inv(q)
    ensures Inv(Settle(q, job, ok))
  {
    if job in q.inFlight {
      var p := q.(running := q.running - 1, inFlight := Remove(q.inFlight, job), finished := q.finished + [Settled(job, ok)]);
      RemoveFacts(q.inFlight, job);
      JobsAppend(q.finished, Settled(job, ok));
      forall j | j in p.inFlight
        ensures j in p.started && j !in Jobs(p.finished)
      {
        assert j in q.inFlight;
      }
      ProcessInv(p);
    }
  }

  /** Every reachable queue satisfies the invariant: in particular at most
      `maxConcurrency` jobs run, jobs start in submission order, and the
      stats' total counts the unsettled jobs. */
  lemma {:induction false} RunInv(q: Queue, es: seq<Event>)
    requires Inv(q)
    ensures Inv(Run(q, es))
    decreases |es|
  {
    if |es| > 0 {
      match es[0] {
        case AddJob => AddInv(q);
        case SettleJob(j, ok) => SettleInv(q, j, ok);
      }
      RunInv(Step(q, es[0]), es[1..]);
    }
  }

  /** In any run from a new queue, the number of running jobs stays within
      the limit, and the jobs that have started are the first ones
      submitted, in order. */
  lemma RunBounded(maxConcurrency: int, es: seq<Event>)
    ensures var q := Run(NewQueue(maxConcurrency), es);
      && 0 <= q.running
      && (q.running == 0 || q.running <= maxConcurrency)
      && |q.started| <= q.submitted
      && q.started == Iota(q.submitted)[..|q.started|]
  {
    var q := Run(NewQueue(maxConcurrency), es);
    RunInv(NewQueue(maxConcurrency), es);
    RunKeepsLimit(NewQueue(maxConcurrency), es);
    assert (q.started + q.waiting)[..|q.started|] == q.started;
  }

  lemma {:induction false} RunKeepsLimit(q: Queue, es: seq<Event>)
    ensures Run(q, es).maxConcurrency == q.maxConcurrency
    decreases |es|
  {
    if |es| > 0 {
      RunKeepsLimit(Step(q, es[0]), es[1..]);
    }
  }

  /** A settling job, rejected or resolved, frees its slot for the oldest
      waiting job; it records its own outcome only, and every other running
      job keeps running. */
  lemma SettleDispatches(q: Queue, job: nat, ok: bool)
    requires Inv(q) && job in q.inFlight
    ensures var p := Settle(q, job, ok);
      && p.finished == q.finished + [Settled(job, ok)]
      && job !in p.inFlight
      && (forall j :: j in q.inFlight && j != job ==> j in p.inFlight)
      && (|q.waiting| > 0 ==> p.running == q.running && q.waiting[0] in p.inFlight && p.waiting == q.waiting[1..])
      && (|q.waiting| == 0 ==> p.running == q.running - 1)
  {
    RemoveFacts(q.inFlight, job);
    if |q.waiting| > 0 {
      HeadNotStarted(q);
    }
  }

  /** Adding a job while a slot is free starts it at once; otherwise it
      waits at the tail of the line. */
  lemma AddStartsOrWaits(q: Queue)
    requires Inv(q)
    ensures var p := Add(q);
      && (q.running < q.maxConcurrency ==> p.inFlight == q.inFlight + [q.submitted] && p.waiting == [])
      && (q.running >= q.maxConcurrency ==> p.waiting == q.waiting + [q.submitted] && p.running == q.running)
  {
  }
}
