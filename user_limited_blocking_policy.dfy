/** The blocking policy that, on top of the timeout, bounds how many threads may block at once
    for one job and one user. Each (job, user) pair has a first-in first-out queue of blocked
    threads of fixed capacity; the queues live in a map that `Block` and `Unblocked` update in
    place. Threads are opaque identifiers compared by equality; waking up an evicted thread
    (`notifyAll`) is modelled by returning that thread. */
module UserLimitedBlockingPolicy {
  import opened Wrappers
  import LimitedBlockingPolicy

  /** Default number of threads that may block for one job and one user. */
  const DEFAULT_NB_MAX_BLOCKED: nat := 3

  /** The owner of a job, as far as the key is concerned: its ID may be null. */
  datatype JobOwner = JobOwner(id: Option<string>)

  /** The HTTP request, as far as the key is concerned: the client's address. */
  datatype HttpRequest = HttpRequest(remoteAddr: string)

  /** The capacity of every queue: `maxNbBlocked`, or the default when it is not positive. */
  function Capacity(maxNbBlocked: int): (c: nat)
    ensures c >= 1
    ensures maxNbBlocked > 0 ==> c == maxNbBlocked
    ensures maxNbBlocked <= 0 ==> c == DEFAULT_NB_MAX_BLOCKED
  {
    if maxNbBlocked <= 0 then DEFAULT_NB_MAX_BLOCKED else maxNbBlocked
  }

  /** Who is blocking: the user's ID, else the client's address, else "???". */
  function Requester(user: Option<JobOwner>, request: Option<HttpRequest>): string
  {
    if user.None? || user.value.id.None? then
      if request.None? then "???" else request.value.remoteAddr
    else user.value.id.value
  }

  /** buildKey: the job ID, a semicolon, and the requester. */
  function BuildKey(jobId: string, user: Option<JobOwner>, request: Option<HttpRequest>): (key: string)
    ensures |key| > |jobId| && key[..|jobId|] == jobId && key[|jobId|] == ';'
    ensures user.Some? && user.value.id.Some? ==> key[|jobId| + 1..] == user.value.id.value
    ensures (user.None? || user.value.id.None?) && request.Some? ==> key[|jobId| + 1..] == request.value.remoteAddr
    ensures (user.None? || user.value.id.None?) && request.None? ==> key[|jobId| + 1..] == "???"
  {
    jobId + ";" + Requester(user, request)
  }

  /** When job IDs hold no semicolon, two keys are equal only for the same job and the same
      requester text. */
  lemma BuildKeyInjective(jobId1: string, user1: Option<JobOwner>, request1: Option<HttpRequest>,
                          jobId2: string, user2: Option<JobOwner>, request2: Option<HttpRequest>)
    requires ';' !in jobId1 && ';' !in jobId2
    requires BuildKey(jobId1, user1, request1) == BuildKey(jobId2, user2, request2)
    ensures jobId1 == jobId2
    ensures Requester(user1, request1) == Requester(user2, request2)
  {
    var key := BuildKey(jobId1, user1, request1);
    assert jobId1 == key[..|jobId1|] == jobId2;
    assert Requester(user1, request1) == key[|jobId1| + 1..] == Requester(user2, request2);
  }

  /** The requester text does not say where it came from: a user whose ID is a client address
      shares the queue of anonymous requests from that address, and a user whose ID is `???`
      shares the queue of calls made without a request. */
  lemma RequesterKindsShareKeys(jobId: string, addr: string, request: Option<HttpRequest>)
    ensures BuildKey(jobId, Some(JobOwner(Some(addr))), request) == BuildKey(jobId, None, Some(HttpRequest(addr)))
    ensures BuildKey(jobId, Some(JobOwner(Some("???"))), request) == BuildKey(jobId, None, None)
  {
  }

  /** Every stored queue is non-empty and holds at most `capacity` threads. */
  ghost predicate QueuesBounded<Thread>(queues: map<string, seq<Thread>>, capacity: nat)
  {
    forall key :: key in queues ==> 1 <= |queues[key]| <= capacity
  }

  /** The queue stored under `key`, or a new empty one. */
  function QueueOf<Thread>(queues: map<string, seq<Thread>>, key: string): seq<Thread>
  {
    if key in queues then queues[key] else []
  }

  /** What offering a thread to a queue of the given capacity does. */
  datatype Offer<Thread> =
    | Accepted(queue: seq<Thread>, evicted: Option<Thread>)
    | Refused

  /** The queue after `thread` asks to block: appended when there is room; when the queue is full,
      either the oldest thread is evicted to make room, or the request is refused. */
  function OfferThread<Thread>(queue: seq<Thread>, capacity: nat, unblockOld: bool, thread: Thread): (o: Offer<Thread>)
    requires 1 <= capacity && |queue| <= capacity
    ensures o.Accepted? ==> 1 <= |o.queue| <= capacity && o.queue[|o.queue| - 1] == thread
    ensures o.Refused? <==> |queue| == capacity && !unblockOld
    ensures |queue| < capacity ==> o == Accepted(queue + [thread], None)
    ensures |queue| == capacity && unblockOld ==>
              o == Accepted(queue[1..] + [thread], Some(queue[0])) && |o.queue| == capacity
  {
    if |queue| < capacity then Accepted(queue + [thread], None)
    else if unblockOld then Accepted(queue[1..] + [thread], Some(queue[0]))
    else Refused
  }

  /** Accepting a thread keeps every queue non-empty and within capacity. */
  lemma OfferKeepsQueuesBounded<Thread>(queues: map<string, seq<Thread>>, capacity: nat, unblockOld: bool,
                                        key: string, thread: Thread)
    requires 1 <= capacity && QueuesBounded(queues, capacity)
    ensures |QueueOf(queues, key)| <= capacity
    ensures var o := OfferThread(QueueOf(queues, key), capacity, unblockOld, thread);
            o.Accepted? ==> QueuesBounded(queues[key := o.queue], capacity)
  {
  }

  /** The queue without the first occurrence of `thread` (Iterator.remove on the first match). */
  function RemoveFirst<Thread(==)>(queue: seq<Thread>, thread: Thread): (r: seq<Thread>)
    ensures thread in queue ==> |r| == |queue| - 1
    ensures thread !in queue ==> r == queue
  {
    if queue == [] then []
    else if queue[0] == thread then queue[1..]
    else [queue[0]] + RemoveFirst(queue[1..], thread)
  }

  /** Removing the first occurrence takes exactly one copy of the thread out of the queue. */
  lemma {:induction false} RemoveFirstMultiset<Thread>(queue: seq<Thread>, thread: Thread)
    ensures multiset(RemoveFirst(queue, thread)) == multiset(queue) - multiset{thread}
  {
    if queue != [] && queue[0] != thread {
      RemoveFirstMultiset(queue[1..], thread);
      assert queue == [queue[0]] + queue[1..];
    } else if queue != [] {
      assert queue == [queue[0]] + queue[1..];
    }
  }

  /** RemoveFirst cuts the queue at the first index that holds the thread. */
  lemma {:induction false} RemoveFirstAt<Thread>(queue: seq<Thread>, thread: Thread, i: nat)
    requires i < |queue| && queue[i] == thread
    requires forall j :: 0 <= j < i ==> queue[j] != thread
    ensures RemoveFirst(queue, thread) == queue[..i] + queue[i + 1..]
  {
    if i > 0 {
      RemoveFirstAt(queue[1..], thread, i - 1);
      assert queue[1..][..i - 1] == queue[1..i];
      assert queue[..i] == [queue[0]] + queue[1..i];
    }
  }

  /** The map after `thread` has stopped blocking under `key`: its first occurrence is removed,
      and the key is dropped once its queue is empty; an absent key or thread changes nothing. */
  function UnblockStep<Thread(==)>(queues: map<string, seq<Thread>>, key: string, thread: Thread): (r: map<string, seq<Thread>>)
    ensures forall k :: k != key ==> (k in r <==> k in queues)
    ensures forall k :: k != key && k in queues ==> r[k] == queues[k]
    ensures key !in queues || thread !in queues[key] ==> r == queues
    ensures key in queues && thread in queues[key] ==>
              (key in r <==> |queues[key]| > 1) &&
              (key in r ==> r[key] == RemoveFirst(queues[key], thread))
  {
    if key !in queues || thread !in queues[key] then queues
    else
      var rest := RemoveFirst(queues[key], thread);
      if rest == [] then queues - {key} else queues[key := rest]
  }

  /** Unblocking keeps every queue non-empty and within capacity. */
  lemma UnblockKeepsQueuesBounded<Thread>(queues: map<string, seq<Thread>>, capacity: nat, key: string, thread: Thread)
    requires QueuesBounded(queues, capacity)
    ensures QueuesBounded(UnblockStep(queues, key, thread), capacity)
  {
  }

  lemma UnblockAfterAppend<Thread>(queues: map<string, seq<Thread>>, key: string, thread: Thread)
    requires key in queues ==> queues[key] != []
    requires thread !in QueueOf(queues, key)
    ensures UnblockStep(queues[key := QueueOf(queues, key) + [thread]], key, thread) == queues
  {
    var q := QueueOf(queues, key);
    var after := queues[key := q + [thread]];
    RemoveFirstAt(q + [thread], thread, |q|);
    assert (q + [thread])[..|q|] == q;
    assert after[key][|q|] == thread;
    assert RemoveFirst(after[key], thread) == q;
    if key in queues {
      assert UnblockStep(after, key, thread) == after[key := q];
      assert after[key := q] == queues;
    } else {
      assert after - {key} == queues;
    }
  }

  /** A thread that blocks without evicting anyone, and that was not already waiting under its
      key, leaves the map exactly as it was once it is unblocked. */
  lemma BlockThenUnblock<Thread>(queues: map<string, seq<Thread>>, capacity: nat, unblockOld: bool,
                                 key: string, thread: Thread)
    requires 1 <= capacity && QueuesBounded(queues, capacity)
    requires |QueueOf(queues, key)| < capacity && thread !in QueueOf(queues, key)
    ensures var o := OfferThread(QueueOf(queues, key), capacity, unblockOld, thread);
            o.Accepted? && o.evicted.None? && UnblockStep(queues[key := o.queue], key, thread) == queues
  {
    UnblockAfterAppend(queues, key, thread);
  }

  /** The per-(job, user) limiting policy. */
  class Policy<Thread(==)> {
    /** The inherited timeout policy. */
    const limits: LimitedBlockingPolicy.Policy
    /** The capacity of every queue. */
    const maxBlockedThreadsByUser: nat
    /** On a full queue: evict the oldest thread (true) or refuse the new one (false). */
    const unblockOld: bool
    /** The queues of blocked threads, by key. */
    var blockedThreads: map<string, seq<Thread>>

    ghost predicate Valid()
      reads this
    {
      maxBlockedThreadsByUser >= 1 && QueuesBounded(blockedThreads, maxBlockedThreadsByUser)
    }

    /** The no-argument constructor: default timeout, default capacity, evict the oldest. */
    constructor Default()
      ensures Valid()
      ensures limits == LimitedBlockingPolicy.Default()
      ensures maxBlockedThreadsByUser == DEFAULT_NB_MAX_BLOCKED && unblockOld
      ensures blockedThreads == map[]
    {
      limits := LimitedBlockingPolicy.WithTimeout(LimitedBlockingPolicy.DEFAULT_TIMEOUT);
      maxBlockedThreadsByUser := Capacity(DEFAULT_NB_MAX_BLOCKED);
      unblockOld := true;
      blockedThreads := map[];
    }

    /** The constructor taking a timeout: default capacity, evict the oldest. */
    constructor WithTimeout(timeout: int)
      ensures Valid()
      ensures limits == LimitedBlockingPolicy.WithTimeout(timeout)
      ensures maxBlockedThreadsByUser == DEFAULT_NB_MAX_BLOCKED && unblockOld
      ensures blockedThreads == map[]
    {
      limits := LimitedBlockingPolicy.WithTimeout(timeout);
      maxBlockedThreadsByUser := Capacity(DEFAULT_NB_MAX_BLOCKED);
      unblockOld := true;
      blockedThreads := map[];
    }

    /** The constructor taking a timeout and a capacity: evict the oldest. */
    constructor WithLimits(timeout: int, maxNbBlocked: int)
      ensures Valid()
      ensures limits == LimitedBlockingPolicy.WithTimeout(timeout)
      ensures maxBlockedThreadsByUser == Capacity(maxNbBlocked) && unblockOld
      ensures blockedThreads == map[]
    {
      limits := LimitedBlockingPolicy.WithTimeout(timeout);
      maxBlockedThreadsByUser := Capacity(maxNbBlocked);
      unblockOld := true;
      blockedThreads := map[];
    }

    /** The full constructor. */
    constructor (timeout: int, maxNbBlocked: int, unblockOld: bool)
      ensures Valid()
      ensures limits == LimitedBlockingPolicy.WithTimeout(timeout)
      ensures maxBlockedThreadsByUser == Capacity(maxNbBlocked) && this.unblockOld == unblockOld
      ensures blockedThreads == map[]
    {
      limits := LimitedBlockingPolicy.WithTimeout(timeout);
      maxBlockedThreadsByUser := Capacity(maxNbBlocked);
      this.unblockOld := unblockOld;
      blockedThreads := map[];
    }

    /** block: queue `thread` under its (job, user) key. An accepted thread is at the tail of its
        queue and gets the clamped duration; a refused one gets 0 and nothing changes. Only the
        key being blocked on may change. */
    method Block(thread: Thread, userDuration: int, jobId: string, user: Option<JobOwner>, request: Option<HttpRequest>)
      returns (duration: int, evicted: Option<Thread>)
      requires Valid()
      modifies this
      ensures Valid()
      ensures var key := BuildKey(jobId, user, request);
              match OfferThread(QueueOf(old(blockedThreads), key), maxBlockedThreadsByUser, unblockOld, thread)
              case Accepted(queue, oldest) =>
                && blockedThreads == old(blockedThreads)[key := queue]
                && evicted == oldest
                && duration == LimitedBlockingPolicy.Block(limits, userDuration)
              case Refused =>
                blockedThreads == old(blockedThreads) && evicted == None && duration == 0
    {
      var id := BuildKey(jobId, user, request);
      var queue := if id in blockedThreads then blockedThreads[id] else [];
      evicted := None;
      if |queue| < maxBlockedThreadsByUser {
        queue := queue + [thread];
      } else {
        if unblockOld {
          evicted := Some(queue[0]);
          queue := queue[1..];
          queue := queue + [thread];
        } else {
          return 0, None;
        }
      }
      OfferKeepsQueuesBounded(blockedThreads, maxBlockedThreadsByUser, unblockOld, id, thread);
      blockedThreads := blockedThreads[id := queue];
      duration := LimitedBlockingPolicy.Block(limits, userDuration);
    }

    /** unblocked: search the key's queue for `thread`, remove its first occurrence, and drop the
        key when its queue becomes empty. */
    method Unblocked(thread: Thread, jobId: string, user: Option<JobOwner>, request: Option<HttpRequest>)
      requires Valid()
      modifies this
      ensures Valid()
      ensures blockedThreads == UnblockStep(old(blockedThreads), BuildKey(jobId, user, request), thread)
    {
      var id := BuildKey(jobId, user, request);
      UnblockKeepsQueuesBounded(blockedThreads, maxBlockedThreadsByUser, id, thread);
      if id in blockedThreads {
        var queue := blockedThreads[id];
        var i := 0;
        while i < |queue|
          invariant 0 <= i <= |queue|
          invariant forall j :: 0 <= j < i ==> queue[j] != thread
        {
          if queue[i] == thread {
            RemoveFirstAt(queue, thread, i);
            queue := queue[..i] + queue[i + 1..];
            if queue == [] {
              blockedThreads := blockedThreads - {id};
            } else {
              blockedThreads := blockedThreads[id := queue];
            }
            return;
          }
          i := i + 1;
        }
      }
    }
  }
}
