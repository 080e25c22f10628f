/** The claim and lock protocol of the ingestion pipeline, as atomic steps of interleaved workers
    with redelivery, lost workers and failing calls: classify, one extraction lane, resolve, write
    buffer. */
module Pipeline {
  import opened Wrappers

  type Hash = string
  type Lane = string
  type Worker = nat

  datatype Message = Classify(hash: Hash) | Extract(lane: Lane, hash: Hash) | Resolve(hash: Hash)

  /** Where a worker stands in the job it took. */
  datatype Task =
    | Classifying(hash: Hash)              // read the bytes, about to claim the hash
    | Claimed(hash: Hash)                  // claim taken; move and classify may still raise
    | Routing(lane: Lane, hash: Hash)      // classified; the adapter sends the document to its lane
    | Starting(lane: Lane, hash: Hash)     // lane task begun, cache not read yet
    | Acquiring(lane: Lane, hash: Hash)    // no usable cache entry; about to take the lock
    | Refused(lane: Lane, hash: Hash, gap: bool)  // lock refused; cache about to be read again
    | Handling(lane: Lane, hash: Hash)     // lock held, handler running
    | Caching(lane: Lane, hash: Hash)      // handler returned
    | Releasing(lane: Lane, hash: Hash)    // finally, after success
    | Sending(lane: Lane, hash: Hash)      // lock released; result not sent on yet
    | Failing(lane: Lane, hash: Hash)      // handler raised; claim about to be given back
    | Unlocking(lane: Lane, hash: Hash)    // claim given back; finally still to come
    | Resolving(hash: Hash)

  datatype State = State(
    queue: multiset<Message>,
    workers: map<Worker, Task>,
    claims: set<Hash>,
    locks: map<(Lane, Hash), Worker>,
    orphans: set<(Lane, Hash)>,            // locks whose holder is gone; they expire
    cache: set<(Lane, Hash)>,
    buffer: multiset<Hash>,
    written: set<Hash>,
    parked: set<Hash>)

  const INITIAL := State(multiset{}, map[], {}, map[], {}, {}, multiset{}, {}, {})

  /** One atomic step. `readable` says whether a cache entry deserializes and is sent on, `stored`
      whether the cache write goes through. `Lose` is a worker that dies, `Break` a call that fails
      where no handler catches it. */
  datatype Step =
    | Submit(hash: Hash)
    | Take(w: Worker, m: Message)
    | Redeliver(w: Worker)
    | Lose(w: Worker)
    | Break(w: Worker)
    | ExpireLock(lane: Lane, hash: Hash)
    | ClaimDocument(w: Worker)
    | ClassifyFails(w: Worker)
    | ClassifyReturns(w: Worker, lane: Lane)
    | SendToLane(w: Worker)
    | ReadCache(w: Worker, readable: bool)
    | AcquireLock(w: Worker)
    | ReadCacheAgain(w: Worker, readable: bool)
    | HandlerReturns(w: Worker)
    | HandlerRaises(w: Worker)
    | WriteCache(w: Worker, stored: bool)
    | ReleaseLock(w: Worker)
    | SendOn(w: Worker)
    | ReleaseClaim(w: Worker)
    | ReleaseLockAfterFailure(w: Worker)
    | ResolveReturns(w: Worker)
    | ResolveRaises(w: Worker)
    | Flush(hash: Hash, accepted: bool)

  function Begun(m: Message): Task {
    match m
    case Classify(h) => Classifying(h)
    case Extract(l, h) => Starting(l, h)
    case Resolve(h) => Resolving(h)
  }

  /** The message a worker is still to acknowledge. */
  function Delivered(t: Task): Message {
    match t
    case Classifying(h) => Classify(h)
    case Claimed(h) => Classify(h)
    case Routing(_, h) => Classify(h)
    case Resolving(h) => Resolve(h)
    case _ => Extract(t.lane, t.hash)
  }

  function Goes(s: State, w: Worker, t: Task): State {
    s.(workers := s.workers[w := t])
  }

  function Ends(s: State, w: Worker): State {
    s.(workers := s.workers - {w})
  }

  function Sends(s: State, m: Message): State {
    s.(queue := s.queue + multiset{m})
  }

  function Unlocked(s: State, lane: Lane, h: Hash): State {
    s.(locks := s.locks - {(lane, h)}, orphans := s.orphans - {(lane, h)})
  }

  /** The worker is gone; a lock it held stays behind. */
  function Vanishes(s: State, w: Worker): State
    requires w in s.workers
  {
    var t := s.workers[w];
    if Holds(t) then Ends(s.(locks := s.locks - {(t.lane, t.hash)}, orphans := s.orphans + {(t.lane, t.hash)}), w)
    else Ends(s, w)
  }

  /** Between acquiring and releasing the lock. */
  predicate Holds(t: Task) {
    t.Handling? || t.Caching? || t.Releasing? || t.Failing? || t.Unlocking?
  }

  /** A failure of a call here ends the job outside every handler. */
  predicate Unguarded(t: Task) {
    !t.Claimed? && !t.Handling? && !t.Caching? && !t.Failing?
  }

  /** Whether the holder of a taken lock is gone or has already given the document's claim back. */
  predicate InGap(s: State, key: (Lane, Hash)) {
    key in s.orphans || (key in s.locks && s.locks[key] in s.workers && s.workers[s.locks[key]].Unlocking?)
  }

  predicate Enabled(s: State, a: Step) {
    match a
    case Submit(_) => true
    case Take(w, m) => m in s.queue && w !in s.workers
    case Redeliver(w) => w in s.workers
    case Lose(w) => w in s.workers
    case Break(w) => w in s.workers && Unguarded(s.workers[w])
    case ExpireLock(lane, h) => (lane, h) in s.orphans
    case ClaimDocument(w) => w in s.workers && s.workers[w].Classifying?
    case ClassifyFails(w) => w in s.workers && s.workers[w].Claimed?
    case ClassifyReturns(w, _) => w in s.workers && s.workers[w].Claimed?
    case SendToLane(w) => w in s.workers && s.workers[w].Routing?
    case ReadCache(w, _) => w in s.workers && s.workers[w].Starting?
    case AcquireLock(w) => w in s.workers && s.workers[w].Acquiring?
    case ReadCacheAgain(w, _) => w in s.workers && s.workers[w].Refused?
    case HandlerReturns(w) => w in s.workers && s.workers[w].Handling?
    case HandlerRaises(w) => w in s.workers && s.workers[w].Handling?
    case WriteCache(w, _) => w in s.workers && s.workers[w].Caching?
    case ReleaseLock(w) => w in s.workers && s.workers[w].Releasing?
    case SendOn(w) => w in s.workers && s.workers[w].Sending?
    case ReleaseClaim(w) => w in s.workers && s.workers[w].Failing?
    case ReleaseLockAfterFailure(w) => w in s.workers && s.workers[w].Unlocking?
    case ResolveReturns(w) => w in s.workers && s.workers[w].Resolving?
    case ResolveRaises(w) => w in s.workers && s.workers[w].Resolving?
    case Flush(h, _) => h in s.buffer
  }

  /** The steps that take or give back a lock. */
  predicate OfLock(a: Step) {
    a.AcquireLock? || a.ReleaseLock? || a.ReleaseClaim? || a.ReleaseLockAfterFailure?
  }

  /** The worker's job ends for good: it dies, or a call fails outside every handler. */
  predicate OfLoss(a: Step) {
    a.Lose? || a.Break?
  }

  /** The effect of a step. With `fused` the failing lane gives claim and lock back in one step;
      the code does it in two, claim first. */
  function Next(fused: bool, s: State, a: Step): State
    requires Enabled(s, a)
  {
    if OfLoss(a) then Vanishes(if a.Lose? then Sends(s, Delivered(s.workers[a.w])) else s, a.w)
    else if OfLock(a) then NextOfLock(fused, s, a)
    else NextElse(s, a)
  }

  function NextOfLock(fused: bool, s: State, a: Step): State
    requires Enabled(s, a) && OfLock(a)
  {
    var w, t := a.w, s.workers[a.w];
    var key := (t.lane, t.hash);
    match a
    case AcquireLock(_) =>
      if key in s.locks || key in s.orphans then Goes(s, w, Refused(t.lane, t.hash, InGap(s, key)))
      else Goes(s.(locks := s.locks[key := w]), w, Handling(t.lane, t.hash))
    case ReleaseLock(_) => Goes(Unlocked(s, t.lane, t.hash), w, Sending(t.lane, t.hash))
    case ReleaseClaim(_) =>
      var released := s.(claims := s.claims - {t.hash});
      if fused then Ends(Unlocked(released, t.lane, t.hash), w) else Goes(released, w, Unlocking(t.lane, t.hash))
    case ReleaseLockAfterFailure(_) => Ends(Unlocked(s, t.lane, t.hash), w)
  }

  function NextElse(s: State, a: Step): State
    requires Enabled(s, a) && !OfLock(a) && !OfLoss(a)
  {
    match a
    case Submit(h) => Sends(s, Classify(h))
    case Take(w, m) => Goes(s.(queue := s.queue - multiset{m}), w, Begun(m))
    case Redeliver(w) => Sends(s, Delivered(s.workers[w]))
    case ExpireLock(lane, h) => s.(orphans := s.orphans - {(lane, h)})
    case ClaimDocument(w) =>
      var h := s.workers[w].hash;
      if h in s.claims then Ends(s, w) else Goes(s.(claims := s.claims + {h}), w, Claimed(h))
    case ClassifyFails(w) => Ends(s.(claims := s.claims - {s.workers[w].hash}), w)
    case ClassifyReturns(w, lane) => Goes(s, w, Routing(lane, s.workers[w].hash))
    case SendToLane(w) => Ends(Sends(s, Extract(s.workers[w].lane, s.workers[w].hash)), w)
    case ReadCache(w, readable) =>
      var t := s.workers[w];
      if (t.lane, t.hash) in s.cache && readable then Ends(Sends(s, Resolve(t.hash)), w)
      else Goes(s, w, Acquiring(t.lane, t.hash))
    case ReadCacheAgain(w, readable) =>
      var t := s.workers[w];
      if (t.lane, t.hash) in s.cache && readable then Ends(Sends(s, Resolve(t.hash)), w) else Ends(s, w)
    case HandlerReturns(w) => Goes(s, w, Caching(s.workers[w].lane, s.workers[w].hash))
    case HandlerRaises(w) => Goes(s, w, Failing(s.workers[w].lane, s.workers[w].hash))
    case WriteCache(w, stored) =>
      var t := s.workers[w];
      Goes(s.(cache := s.cache + if stored then {(t.lane, t.hash)} else {}), w, Releasing(t.lane, t.hash))
    case SendOn(w) => Ends(Sends(s, Resolve(s.workers[w].hash)), w)
    case ResolveReturns(w) => Ends(s.(buffer := s.buffer + multiset{s.workers[w].hash}), w)
    case ResolveRaises(w) => Ends(s.(claims := s.claims - {s.workers[w].hash}), w)
    case Flush(h, accepted) =>
      var taken := s.(buffer := s.buffer - multiset{h});
      if accepted then taken.(written := s.written + {h}) else taken.(parked := s.parked + {h})
  }

  /** The state after a list of steps, or None when one of them was not enabled. */
  function Run(fused: bool, s: State, steps: seq<Step>): Option<State>
    decreases steps
  {
    if steps == [] then Some(s)
    else if !Enabled(s, steps[0]) then None
    else Run(fused, Next(fused, s, steps[0]), steps[1..])
  }

  // ---- the lock -------------------------------------------------------------------------------

  function Key(t: Task): (Lane, Hash)
    requires Holds(t)
  {
    (t.lane, t.hash)
  }

  /** The lock table lists exactly the workers between acquiring and releasing. */
  ghost predicate Held(workers: map<Worker, Task>, locks: map<(Lane, Hash), Worker>) {
    && (forall key :: key in locks ==> locks[key] in workers && Holds(workers[locks[key]]) && key == Key(workers[locks[key]]))
    && (forall w :: w in workers && Holds(workers[w]) ==> Key(workers[w]) in locks && locks[Key(workers[w])] == w)
  }

  ghost predicate LocksAreHeld(s: State) {
    Held(s.workers, s.locks)
  }

  /** The steps of a worker, other than taking a message and being redelivered one. */
  predicate OfWorker(a: Step) {
    !a.Submit? && !a.Take? && !a.Redeliver? && !a.Flush? && !a.ExpireLock?
  }

  lemma {:induction false} LossIsLocal(fused: bool, s: State, a: Step)
    requires Enabled(s, a) && OfLoss(a)
    ensures Next(fused, s, a).workers == s.workers - {a.w}
  {
  }

  lemma {:induction false} Without(workers: map<Worker, Task>, w: Worker)
    ensures (workers - {w}) - {w} == workers - {w}
    ensures forall t {:trigger workers[w := t]} :: workers[w := t] - {w} == workers - {w}
  {
  }

  lemma {:induction false} LockStepIsLocal(fused: bool, s: State, a: Step)
    requires Enabled(s, a) && OfLock(a)
    ensures Next(fused, s, a).workers - {a.w} == s.workers - {a.w}
  {
    Without(s.workers, a.w);
  }

  lemma {:induction false} ActIsLocal(s: State, a: Step)
    requires Enabled(s, a) && OfWorker(a) && !OfLoss(a) && !OfLock(a)
    ensures NextElse(s, a).workers - {a.w} == s.workers - {a.w}
  {
    Without(s.workers, a.w);
  }

  /** A worker's step leaves the other workers alone and stays with its own hash. */
  lemma {:induction false} StepIsLocal(fused: bool, s: State, a: Step)
    requires Enabled(s, a) && OfWorker(a)
    ensures Next(fused, s, a).workers - {a.w} == s.workers - {a.w}
  {
    if OfLoss(a) {
      LossIsLocal(fused, s, a);
    } else if OfLock(a) {
      LockStepIsLocal(fused, s, a);
    } else {
      ActIsLocal(s, a);
    }
  }

  lemma {:induction false} StepKeepsHash(fused: bool, s: State, a: Step)
    requires Enabled(s, a) && OfWorker(a)
    ensures a.w in Next(fused, s, a).workers ==> Next(fused, s, a).workers[a.w].hash == s.workers[a.w].hash
  {
  }

  lemma {:induction false} OtherWorkersStay(fused: bool, s: State, a: Step, w: Worker)
    requires Enabled(s, a) && OfWorker(a) && w != a.w
    ensures w in Next(fused, s, a).workers <==> w in s.workers
    ensures w in s.workers ==> Next(fused, s, a).workers[w] == s.workers[w]
  {
    var s' := Next(fused, s, a);
    StepIsLocal(fused, s, a);
    assert w in s'.workers - {a.w} <==> w in s.workers - {a.w};
    assert w in s.workers ==> (s.workers - {a.w})[w] == (s'.workers - {a.w})[w];
  }

  lemma {:induction false} OtherClaimsStay(fused: bool, s: State, a: Step, h: Hash)
    requires Enabled(s, a) && OfWorker(a) && s.workers[a.w].hash != h
    ensures h in Next(fused, s, a).claims <==> h in s.claims
  {
  }

  /** A worker's step sends at most its own hash on and takes nothing away. */
  lemma {:induction false} StepSends(fused: bool, s: State, a: Step, m: Message, h: Hash)
    requires Enabled(s, a) && OfWorker(a)
    ensures m in s.queue ==> m in Next(fused, s, a).queue
    ensures m in Next(fused, s, a).queue && m.hash != s.workers[a.w].hash ==> m in s.queue
  {
  }

  lemma {:induction false} StepStores(fused: bool, s: State, a: Step)
    requires Enabled(s, a) && OfWorker(a)
    ensures Next(fused, s, a).written == s.written && Next(fused, s, a).parked == s.parked
  {
    if !OfLoss(a) && !OfLock(a) {
      ActStores(s, a);
    }
  }

  lemma {:induction false} ActStores(s: State, a: Step)
    requires Enabled(s, a) && OfWorker(a) && !OfLoss(a) && !OfLock(a)
    ensures NextElse(s, a).written == s.written && NextElse(s, a).parked == s.parked
  {
  }

  lemma {:induction false} StepBuffers(fused: bool, s: State, a: Step, h: Hash)
    requires Enabled(s, a) && OfWorker(a)
    ensures h in s.buffer ==> h in Next(fused, s, a).buffer
    ensures h in Next(fused, s, a).buffer && h != s.workers[a.w].hash ==> h in s.buffer
  {
  }

  /** Any other step of a worker keeps the table, and the worker's standing in it. */
  lemma {:induction false} StandingStays(fused: bool, s: State, a: Step)
    requires Enabled(s, a) && OfWorker(a) && !OfLock(a) && !OfLoss(a)
    ensures var s', t := Next(fused, s, a), s.workers[a.w];
            && s'.locks == s.locks
            && (Holds(t) <==> a.w in s'.workers && Holds(s'.workers[a.w]))
            && (Holds(t) ==> s'.workers[a.w].lane == t.lane)
  {
  }

  lemma {:induction false} TakenUp(workers: map<Worker, Task>, locks: map<(Lane, Hash), Worker>, w: Worker, t: Task)
    requires Held(workers, locks) && w in workers && !Holds(workers[w])
    ensures !Holds(t) ==> Held(workers[w := t], locks)
    ensures Holds(t) && Key(t) !in locks ==> Held(workers[w := t], locks[Key(t) := w])
  {
  }

  lemma {:induction false} GivenUp(workers: map<Worker, Task>, locks: map<(Lane, Hash), Worker>, w: Worker, t: Task)
    requires Held(workers, locks) && w in workers && !Holds(t)
    ensures Holds(workers[w]) ==>
              && Held(workers - {w}, locks - {Key(workers[w])})
              && Held(workers[w := t], locks - {Key(workers[w])})
    ensures !Holds(workers[w]) ==> Held(workers - {w}, locks)
  {
  }

  lemma {:induction false} AcquireKeepsLocks(fused: bool, s: State, w: Worker)
    requires Enabled(s, AcquireLock(w)) && LocksAreHeld(s)
    ensures LocksAreHeld(Next(fused, s, AcquireLock(w)))
  {
    TakenUp(s.workers, s.locks, w, Next(fused, s, AcquireLock(w)).workers[w]);
  }

  lemma {:induction false} ReleaseKeepsLocks(fused: bool, s: State, a: Step)
    requires Enabled(s, a) && LocksAreHeld(s) && OfLock(a) && !a.AcquireLock?
    ensures LocksAreHeld(Next(fused, s, a))
  {
    var t := s.workers[a.w];
    if a.ReleaseClaim? && !fused {
      assert Next(fused, s, a).workers == s.workers[a.w := Unlocking(t.lane, t.hash)];
    } else {
      GivenUp(s.workers, s.locks, a.w, Sending(t.lane, t.hash));
    }
  }

  lemma {:induction false} LossKeepsLocks(fused: bool, s: State, a: Step)
    requires Enabled(s, a) && LocksAreHeld(s) && OfLoss(a)
    ensures LocksAreHeld(Next(fused, s, a))
  {
    GivenUp(s.workers, s.locks, a.w, Classifying(s.workers[a.w].hash));
  }

  lemma {:induction false} OthersKeepLocks(s: State, s': State, w: Worker)
    requires LocksAreHeld(s) && w in s.workers && s'.locks == s.locks
    requires s'.workers - {w} == s.workers - {w}
    requires Holds(s.workers[w]) <==> w in s'.workers && Holds(s'.workers[w])
    requires Holds(s.workers[w]) ==> s'.workers[w].lane == s.workers[w].lane && s'.workers[w].hash == s.workers[w].hash
    ensures LocksAreHeld(s')
  {
    forall v | v != w
      ensures v in s'.workers <==> v in s.workers
      ensures v in s.workers ==> s'.workers[v] == s.workers[v]
    {
      assert v in s'.workers - {w} <==> v in s.workers - {w};
      assert v in s.workers ==> (s.workers - {w})[v] == (s'.workers - {w})[v];
    }
  }

  lemma {:induction false} StepKeepsLocks(fused: bool, s: State, a: Step)
    requires Enabled(s, a) && LocksAreHeld(s)
    ensures LocksAreHeld(Next(fused, s, a))
  {
    if a.AcquireLock? {
      AcquireKeepsLocks(fused, s, a.w);
    } else if OfLock(a) {
      ReleaseKeepsLocks(fused, s, a);
    } else if OfLoss(a) {
      LossKeepsLocks(fused, s, a);
    } else if OfWorker(a) {
      StepIsLocal(fused, s, a);
      StepKeepsHash(fused, s, a);
      StandingStays(fused, s, a);
      OthersKeepLocks(s, Next(fused, s, a), a.w);
    }
  }

  lemma {:induction false} RunKeepsLocks(fused: bool, s: State, steps: seq<Step>)
    requires LocksAreHeld(s) && Run(fused, s, steps).Some?
    ensures LocksAreHeld(Run(fused, s, steps).value)
    decreases steps
  {
    if steps != [] {
      StepKeepsLocks(fused, s, steps[0]);
      RunKeepsLocks(fused, Next(fused, s, steps[0]), steps[1..]);
    }
  }

  /** Single flight: in every reachable state at most one worker is between acquiring and releasing
      the lock of a lane for a hash, and the lock is its own. */
  lemma {:induction false} SingleFlight(fused: bool, steps: seq<Step>, v: Worker, w: Worker)
    requires Run(fused, INITIAL, steps).Some?
    ensures var s := Run(fused, INITIAL, steps).value;
            w in s.workers && Holds(s.workers[w]) ==>
              var key := (s.workers[w].lane, s.workers[w].hash);
              && key in s.locks && s.locks[key] == w
              && (v in s.workers && Holds(s.workers[v]) && key == (s.workers[v].lane, s.workers[v].hash) ==> v == w)
  {
    RunKeepsLocks(fused, INITIAL, steps);
  }

  // ---- claims have carriers --------------------------------------------------------------------

  /** A task that will bring the hash further or give its claim back. */
  predicate CarriesHash(t: Task, h: Hash) {
    t.hash == h && !t.Classifying? && !t.Unlocking? && (t.Refused? ==> t.gap)
  }

  datatype Carrier = InQueue(m: Message) | AtWorker(w: Worker) | Stored

  ghost predicate Carries(s: State, c: Carrier, h: Hash) {
    match c
    case InQueue(m) => m in s.queue && m.hash == h && !m.Classify?
    case AtWorker(w) => w in s.workers && CarriesHash(s.workers[w], h)
    case Stored => h in s.buffer || h in s.written || h in s.parked
  }

  /** The hash is in some queue, in some worker's hands, in the write buffer, in the graph or in
      the dead letter queue. */
  ghost predicate Carried(s: State, h: Hash) {
    exists c :: Carries(s, c, h)
  }

  ghost predicate ClaimsAreCarried(s: State) {
    forall h :: h in s.claims ==> Carried(s, h)
  }

  /** A worker refused in the gap, or by a lock left behind, finds no usable cache entry and drops
      its task. */
  predicate GapDrop(s: State, a: Step) {
    && a.ReadCacheAgain? && Enabled(s, a) && s.workers[a.w].gap
    && !(a.readable && (s.workers[a.w].lane, s.workers[a.w].hash) in s.cache)
  }

  /** A worker is lost after it claimed and before it sent the document to its lane: what comes back
      is a classification, which a held claim turns into a duplicate. */
  predicate LostClaim(s: State, a: Step) {
    a.Lose? && Enabled(s, a) && (s.workers[a.w].Claimed? || s.workers[a.w].Routing?)
  }

  /** The steps that end a job without handing the hash on or giving its claim back. */
  predicate Drops(s: State, a: Step) {
    GapDrop(s, a) || LostClaim(s, a) || (a.Break? && Enabled(s, a))
  }

  /** A worker's step keeps what carries a hash elsewhere. */
  lemma {:induction false} CarrierStays(fused: bool, s: State, a: Step, h: Hash, c: Carrier)
    requires Enabled(s, a) && OfWorker(a) && Carries(s, c, h) && c != AtWorker(a.w)
    ensures Carries(Next(fused, s, a), c, h)
  {
    match c
    case InQueue(m) => StepSends(fused, s, a, m, h);
    case AtWorker(w) => OtherWorkersStay(fused, s, a, w);
    case Stored =>
      StepStores(fused, s, a);
      StepBuffers(fused, s, a, h);
  }

  lemma {:induction false} LostCarrierActs(fused: bool, s: State, w: Worker, h: Hash)
    requires w in s.workers && Carries(s, AtWorker(w), h) && !LostClaim(s, Lose(w))
    ensures Carries(Next(fused, s, Lose(w)), InQueue(Delivered(s.workers[w])), h)
  {
  }

  lemma {:induction false} AcquiringCarrierActs(fused: bool, s: State, w: Worker, h: Hash) returns (d: Carrier)
    requires Enabled(s, AcquireLock(w)) && LocksAreHeld(s) && Carries(s, AtWorker(w), h)
    ensures Carries(Next(fused, s, AcquireLock(w)), d, h)
  {
    var key := (s.workers[w].lane, h);
    return AtWorker(if key in s.locks && !InGap(s, key) then s.locks[key] else w);
  }

  /** A step of the worker that carries a hash hands the hash on, gives its claim back, or, when
      it is refused the lock, leaves it with the lock's holder. */
  lemma {:induction false} CarrierActs(fused: bool, s: State, a: Step, h: Hash) returns (d: Carrier)
    requires Enabled(s, a) && OfWorker(a) && LocksAreHeld(s) && Carries(s, AtWorker(a.w), h) && !Drops(s, a)
    ensures h in Next(fused, s, a).claims ==> Carries(Next(fused, s, a), d, h)
  {
    var t := s.workers[a.w];
    if a.Lose? {
      LostCarrierActs(fused, s, a.w, h);
      return InQueue(Delivered(t));
    }
    if a.AcquireLock? {
      d := AcquiringCarrierActs(fused, s, a.w, h);
      return;
    }
    return if a.SendToLane? then InQueue(Extract(t.lane, h))
      else if a.SendOn? || ((a.ReadCache? || a.ReadCacheAgain?) && a.readable && (t.lane, h) in s.cache)
      then InQueue(Resolve(h))
      else if a.ResolveReturns? then Stored
      else AtWorker(a.w);
  }

  lemma {:induction false} MessageKeepsCarrier(s: State, m: Message, h: Hash, c: Carrier)
    requires Carries(s, c, h)
    ensures Carries(Sends(s, m), c, h)
  {
  }

  lemma {:induction false} TakeMovesCarrier(s: State, w: Worker, m: Message, h: Hash, c: Carrier)
    requires m in s.queue && w !in s.workers && Carries(s, c, h)
    ensures Carries(Goes(s.(queue := s.queue - multiset{m}), w, Begun(m)), if c == InQueue(m) then AtWorker(w) else c, h)
  {
  }

  lemma {:induction false} FlushKeepsCarrier(fused: bool, s: State, g: Hash, accepted: bool, h: Hash, c: Carrier)
    requires g in s.buffer && Carries(s, c, h)
    ensures Carries(Next(fused, s, Flush(g, accepted)), c, h)
  {
  }

  lemma {:induction false} ExpiryKeepsCarrier(fused: bool, s: State, a: Step, h: Hash, c: Carrier)
    requires Enabled(s, a) && a.ExpireLock? && Carries(s, c, h)
    ensures Carries(Next(fused, s, a), c, h)
  {
  }

  lemma {:induction false} OutsideMovesCarrier(fused: bool, s: State, a: Step, h: Hash, c: Carrier) returns (d: Carrier)
    requires Enabled(s, a) && !OfWorker(a) && Carries(s, c, h)
    ensures Carries(Next(fused, s, a), d, h)
  {
    d := c;
    match a {
      case Submit(g) => MessageKeepsCarrier(s, Classify(g), h, c);
      case Redeliver(w) => MessageKeepsCarrier(s, Delivered(s.workers[w]), h, c);
      case Flush(g, accepted) => FlushKeepsCarrier(fused, s, g, accepted, h, c);
      case ExpireLock(_, _) => ExpiryKeepsCarrier(fused, s, a, h, c);
      case Take(w, m) =>
        TakeMovesCarrier(s, w, m, h, c);
        d := if c == InQueue(m) then AtWorker(w) else c;
    }
  }

  /** What carries a hash after a step, given what carried it before. */
  lemma {:induction false} CarrierMoves(fused: bool, s: State, a: Step, h: Hash, c: Carrier) returns (d: Carrier)
    requires Enabled(s, a) && LocksAreHeld(s) && Carries(s, c, h)
    requires Drops(s, a) ==> c != AtWorker(a.w)
    ensures h in Next(fused, s, a).claims ==> Carries(Next(fused, s, a), d, h)
  {
    d := c;
    if !OfWorker(a) {
      d := OutsideMovesCarrier(fused, s, a, h, c);
    } else if c == AtWorker(a.w) {
      d := CarrierActs(fused, s, a, h);
    } else {
      CarrierStays(fused, s, a, h, c);
    }
  }

  lemma {:induction false} StepKeepsCarriers(fused: bool, s: State, a: Step)
    requires Enabled(s, a) && LocksAreHeld(s) && ClaimsAreCarried(s) && !Drops(s, a)
    ensures ClaimsAreCarried(Next(fused, s, a))
  {
    var s' := Next(fused, s, a);
    forall h | h in s'.claims
      ensures Carried(s', h)
    {
      if h in s.claims {
        var c :| Carries(s, c, h);
        var d := CarrierMoves(fused, s, a, h, c);
        assert Carries(s', d, h);
      } else {
        assert Carries(s', AtWorker(a.w), h);
      }
    }
  }

  /** Exactly which step strands a claim: from a state where every claim has a carrier, a step
      leaves some claim without one if and only if it drops the only thing carrying a claimed hash:
      a task refused in the gap or by a lock left behind, a worker lost between claiming and
      sending, or a call that fails where no handler gives the claim back. */
  lemma {:induction false} StrandsExactlyWhen(fused: bool, s: State, a: Step)
    requires Enabled(s, a) && LocksAreHeld(s) && ClaimsAreCarried(s)
    ensures !ClaimsAreCarried(Next(fused, s, a)) <==>
            && Drops(s, a) && s.workers[a.w].hash in s.claims
            && forall c :: Carries(s, c, s.workers[a.w].hash) ==> c == AtWorker(a.w)
  {
    var s' := Next(fused, s, a);
    if Drops(s, a) {
      var h := s.workers[a.w].hash;
      forall g | g in s'.claims && (g != h || exists c :: Carries(s, c, h) && c != AtWorker(a.w))
        ensures Carried(s', g)
      {
        var c :| Carries(s, c, g) && (g == h ==> c != AtWorker(a.w));
        var d := CarrierMoves(fused, s, a, g, c);
        assert Carries(s', d, g);
      }
      if h in s.claims && forall c :: Carries(s, c, h) ==> c == AtWorker(a.w) {
        forall c
          ensures !Carries(s', c, h)
        {
          DropCarriesNothing(fused, s, a, c);
        }
        assert !Carried(s', h);
      }
    } else {
      StepKeepsCarriers(fused, s, a);
    }
  }

  lemma {:induction false} DropCarriesNothing(fused: bool, s: State, a: Step, c: Carrier)
    requires Enabled(s, a) && Drops(s, a)
    ensures var h := s.workers[a.w].hash;
            && (h in s.claims ==> h in Next(fused, s, a).claims)
            && (Carries(Next(fused, s, a), c, h) ==> Carries(s, c, h) && c != AtWorker(a.w))
  {
  }

  /** Whether a run drops a task with its claim. */
  predicate DropsTask(fused: bool, s: State, steps: seq<Step>)
    decreases steps
  {
    steps != [] && Enabled(s, steps[0]) &&
    (Drops(s, steps[0]) || DropsTask(fused, Next(fused, s, steps[0]), steps[1..]))
  }

  lemma {:induction false} RunKeepsCarriers(fused: bool, s: State, steps: seq<Step>)
    requires LocksAreHeld(s) && ClaimsAreCarried(s)
    requires Run(fused, s, steps).Some? && !DropsTask(fused, s, steps)
    ensures ClaimsAreCarried(Run(fused, s, steps).value)
    decreases steps
  {
    if steps != [] {
      StepKeepsLocks(fused, s, steps[0]);
      StepKeepsCarriers(fused, s, steps[0]);
      RunKeepsCarriers(fused, Next(fused, s, steps[0]), steps[1..]);
    }
  }

  /** Whatever is delivered twice, taken in whatever order and lost elsewhere, no claim is stranded in
      a run without one of these drops. */
  lemma {:induction false} NoStrandedClaim(fused: bool, steps: seq<Step>)
    requires Run(fused, INITIAL, steps).Some? && !DropsTask(fused, INITIAL, steps)
    ensures ClaimsAreCarried(Run(fused, INITIAL, steps).value)
  {
    RunKeepsCarriers(fused, INITIAL, steps);
  }

  // ---- one release instead of two ---------------------------------------------------------------

  ghost predicate NoGap(s: State) {
    s.orphans == {} && forall w :: w in s.workers ==> !s.workers[w].Unlocking? && (s.workers[w].Refused? ==> !s.workers[w].gap)
  }

  /** No worker is lost and no call fails outside a handler. */
  predicate Steady(steps: seq<Step>) {
    steps != [] ==> !OfLoss(steps[0]) && Steady(steps[1..])
  }

  lemma {:induction false} FusedLeavesNoLock(s: State, a: Step)
    requires NoGap(s) && Enabled(s, a) && !OfLoss(a)
    ensures !Drops(s, a) && Next(true, s, a).orphans == {}
  {
  }

  lemma {:induction false} FusedStepHasNoGap(s: State, a: Step)
    requires NoGap(s) && Enabled(s, a) && !OfLoss(a)
    ensures OfWorker(a) && a.w in Next(true, s, a).workers ==>
              var t := Next(true, s, a).workers[a.w]; !t.Unlocking? && (t.Refused? ==> !t.gap)
  {
  }

  lemma {:induction false} FusedHasNoGap(s: State, steps: seq<Step>)
    requires NoGap(s) && Steady(steps)
    ensures !DropsTask(true, s, steps)
    decreases steps
  {
    if steps != [] && Enabled(s, steps[0]) {
      var a := steps[0];
      var s' := Next(true, s, a);
      FusedLeavesNoLock(s, a);
      FusedStepHasNoGap(s, a);
      if OfWorker(a) {
        forall w | w in s'.workers
          ensures !s'.workers[w].Unlocking? && (s'.workers[w].Refused? ==> !s'.workers[w].gap)
        {
          if w != a.w {
            OtherWorkersStay(true, s, a, w);
          }
        }
      }
      FusedHasNoGap(s', steps[1..]);
    }
  }

  /** Giving claim and lock back in one step closes the gap: then every run in which no worker is
      lost and no call fails outside a handler leaves every held claim with a carrier. */
  lemma {:induction false} FusedReleaseNeverStrands(steps: seq<Step>)
    requires Run(true, INITIAL, steps).Some? && Steady(steps)
    ensures ClaimsAreCarried(Run(true, INITIAL, steps).value)
  {
    FusedHasNoGap(INITIAL, steps);
    NoStrandedClaim(true, steps);
  }

  // ---- the gap, and what it costs ---------------------------------------------------------------

  /** Claimed, and nothing about the hash in motion but classifications, which drop duplicates. */
  ghost predicate Stranded(s: State, h: Hash) {
    && h in s.claims && h !in s.buffer && h !in s.written && h !in s.parked
    && (forall m :: m in s.queue && m.hash == h ==> m.Classify?)
    && (forall w :: w in s.workers && s.workers[w].hash == h ==> s.workers[w].Classifying?)
  }

  lemma {:induction false} StrandedStays(fused: bool, s: State, a: Step, h: Hash)
    requires Stranded(s, h) && Enabled(s, a)
    ensures Stranded(Next(fused, s, a), h)
  {
    if OfWorker(a) {
      if s.workers[a.w].hash != h {
        OthersStrand(fused, s, a, h);
      } else {
        DuplicateStrands(fused, s, a, h);
      }
    } else if a.Take? {
      TakeStrands(fused, s, a, h);
    }
  }

  lemma {:induction false} DuplicateStrands(fused: bool, s: State, a: Step, h: Hash)
    requires Stranded(s, h) && Enabled(s, a) && OfWorker(a) && s.workers[a.w].hash == h
    ensures Stranded(Next(fused, s, a), h)
  {
    assert a == ClaimDocument(a.w) || a == Lose(a.w) || a == Break(a.w);
  }

  lemma {:induction false} TakeStrands(fused: bool, s: State, a: Step, h: Hash)
    requires Stranded(s, h) && Enabled(s, a) && a.Take?
    ensures Stranded(Next(fused, s, a), h)
  {
  }

  lemma {:induction false} OthersStrand(fused: bool, s: State, a: Step, h: Hash)
    requires Stranded(s, h) && Enabled(s, a) && OfWorker(a) && s.workers[a.w].hash != h
    ensures Stranded(Next(fused, s, a), h)
  {
    var s' := Next(fused, s, a);
    OtherClaimsStay(fused, s, a, h);
    StepStores(fused, s, a);
    StepBuffers(fused, s, a, h);
    forall m | m in s'.queue && m.hash == h
      ensures m.Classify?
    {
      StepSends(fused, s, a, m, h);
    }
    StepKeepsHash(fused, s, a);
    forall w | w in s'.workers && s'.workers[w].hash == h
      ensures s'.workers[w].Classifying?
    {
      OtherWorkersStay(fused, s, a, w);
    }
  }

  /** A stranded document never gets into the graph: no later step, resubmission included, brings
      it back. */
  lemma {:induction false} StrandedForever(fused: bool, s: State, steps: seq<Step>, h: Hash)
    requires Stranded(s, h) && Run(fused, s, steps).Some?
    ensures Stranded(Run(fused, s, steps).value, h)
    decreases steps
  {
    if steps != [] {
      StrandedStays(fused, s, steps[0], h);
      StrandedForever(fused, Next(fused, s, steps[0]), steps[1..], h);
    }
  }

  lemma {:induction false} RunConcat(fused: bool, s: State, a: seq<Step>, b: seq<Step>)
    requires Run(fused, s, a).Some?
    ensures Run(fused, s, a + b) == Run(fused, Run(fused, s, a).value, b)
    decreases a
  {
    if a == [] {
      assert a + b == b;
    } else {
      assert (a + b)[0] == a[0] && (a + b)[1..] == a[1..] + b;
      RunConcat(fused, Next(fused, s, a[0]), a[1..], b);
    }
  }

  /** One more step at the end of a run. */
  lemma {:induction false} Extend(s: State, steps: seq<Step>, t: State, a: Step) returns (more: seq<Step>, u: State)
    requires Run(false, s, steps) == Some(t) && Enabled(t, a)
    ensures Run(false, s, more) == Some(u) && u == Next(false, t, a) && more == steps + [a]
  {
    more, u := steps + [a], Next(false, t, a);
    RunConcat(false, s, steps, [a]);
    assert [a][1..] == [];
  }

  /** A document is submitted and claimed by worker `w`. */
  lemma {:induction false} SubmitAndClaim(s: State, h: Hash, w: Worker) returns (steps: seq<Step>, t: State)
    requires s.queue == multiset{} && w !in s.workers && h !in s.claims
    ensures Run(false, s, steps) == Some(t)
    ensures t == s.(claims := s.claims + {h}, workers := s.workers[w := Claimed(h)])
  {
    steps, t := SubmitAndTake(s, h, w);
    steps, t := Extend(s, steps, t, ClaimDocument(w));
  }

  lemma {:induction false} SubmitAndTake(s: State, h: Hash, w: Worker) returns (steps: seq<Step>, t: State)
    requires s.queue == multiset{} && w !in s.workers
    ensures Run(false, s, steps) == Some(t)
    ensures t == s.(workers := s.workers[w := Classifying(h)])
  {
    steps, t := [], s;
    steps, t := Extend(s, steps, t, Submit(h));
    assert t == s.(queue := multiset{Classify(h)});
    steps, t := Extend(s, steps, t, Take(w, Classify(h)));
  }

  /** ... and sent to its lane. */
  lemma {:induction false} Submitted(s: State, h: Hash, lane: Lane, w: Worker) returns (steps: seq<Step>, t: State)
    requires s.queue == multiset{} && w !in s.workers && h !in s.claims
    ensures Run(false, s, steps) == Some(t)
    ensures t == s.(queue := multiset{Extract(lane, h)}, claims := s.claims + {h})
  {
    steps, t := SubmitAndClaim(s, h, w);
    steps, t := Extend(s, steps, t, ClassifyReturns(w, lane));
    assert t.workers == s.workers[w := Routing(lane, h)];
    steps, t := Extend(s, steps, t, SendToLane(w));
    assert t.workers == s.workers;
  }

  /** Worker `w` takes the lane task, finds no cache entry and asks for the lock. */
  lemma {:induction false} Asked(s: State, h: Hash, lane: Lane, w: Worker) returns (steps: seq<Step>, t: State)
    requires s.queue == multiset{Extract(lane, h)} && w !in s.workers && (lane, h) !in s.cache
    ensures Run(false, s, steps) == Some(t)
    ensures t == s.(queue := multiset{}, workers := s.workers[w := Acquiring(lane, h)])
  {
    steps, t := [], s;
    steps, t := Extend(s, steps, t, Take(w, Extract(lane, h)));
    assert t == s.(queue := multiset{}, workers := s.workers[w := Starting(lane, h)]);
    steps, t := Extend(s, steps, t, ReadCache(w, true));
  }

  /** How: worker 1 fails on a document and gives its claim back; before it releases
      the lock the document is resubmitted, claimed and sent to the lane again, where worker 2 is
      refused the lock and drops the job as already in flight. */
  lemma {:induction false} GapStrandsClaim(h: Hash, lane: Lane) returns (steps: seq<Step>)
    ensures Run(false, INITIAL, steps).Some? && Stranded(Run(false, INITIAL, steps).value, h)
  {
    var key := (lane, h);
    var a, s1 := Submitted(INITIAL, h, lane, 1);
    var b, s2 := Asked(s1, h, lane, 1);
    var c, s3 := FailedOnce(s2, h, lane);
    var d, s4 := Submitted(s3, h, lane, 2);
    var e, s5 := Asked(s4, h, lane, 2);
    var f, s6 := DroppedInGap(s5, h, lane);
    RunConcat(false, INITIAL, a, b);
    RunConcat(false, INITIAL, a + b, c);
    RunConcat(false, INITIAL, a + b + c, d);
    RunConcat(false, INITIAL, a + b + c + d, e);
    RunConcat(false, INITIAL, a + b + c + d + e, f);
    steps := a + b + c + d + e + f;
  }

  lemma {:induction false} FailedOnce(s: State, h: Hash, lane: Lane) returns (steps: seq<Step>, t: State)
    requires s.workers == map[1 := Acquiring(lane, h)] && (lane, h) !in s.locks && (lane, h) !in s.orphans
    ensures Run(false, s, steps) == Some(t)
    ensures t == s.(workers := map[1 := Unlocking(lane, h)], locks := s.locks[(lane, h) := 1], claims := s.claims - {h})
  {
    steps, t := [], s;
    steps, t := Extend(s, steps, t, AcquireLock(1));
    steps, t := Extend(s, steps, t, HandlerRaises(1));
    steps, t := Extend(s, steps, t, ReleaseClaim(1));
    assert t.workers == map[1 := Unlocking(lane, h)];
  }

  lemma {:induction false} DroppedInGap(s: State, h: Hash, lane: Lane) returns (steps: seq<Step>, t: State)
    requires s.workers == map[1 := Unlocking(lane, h), 2 := Acquiring(lane, h)]
    requires (lane, h) in s.locks && s.locks[(lane, h)] == 1 && (lane, h) !in s.cache && (lane, h) !in s.orphans
    ensures Run(false, s, steps) == Some(t)
    ensures t == s.(workers := map[], locks := s.locks - {(lane, h)})
  {
    steps, t := [], s;
    steps, t := Extend(s, steps, t, AcquireLock(2));
    assert t == s.(workers := map[1 := Unlocking(lane, h), 2 := Refused(lane, h, true)]);
    steps, t := Extend(s, steps, t, ReadCacheAgain(2, true));
    assert t == s.(workers := map[1 := Unlocking(lane, h)]);
    steps, t := Extend(s, steps, t, ReleaseLockAfterFailure(1));
    assert t.workers == map[] && t.orphans == s.orphans;
  }

  // ---- a lost worker, and what it costs ------------------------------------------------------------

  /** A worker lost right after claiming strands the document: its message comes back, and is then a
      duplicate. */
  lemma {:induction false} LossStrandsClaim(h: Hash) returns (steps: seq<Step>)
    ensures Run(false, INITIAL, steps).Some? && Stranded(Run(false, INITIAL, steps).value, h)
  {
    var t;
    steps, t := SubmitAndClaim(INITIAL, h, 1);
    steps, t := Extend(INITIAL, steps, t, Lose(1));
    assert t.workers == map[] && t.queue == multiset{Classify(h)};
  }

  /** A worker lost while the handler runs: its message comes back and is refused by the lock it left
      behind, then dropped as already in flight. */
  lemma {:induction false} LockLeftBehindStrandsClaim(h: Hash, lane: Lane) returns (steps: seq<Step>)
    ensures Run(false, INITIAL, steps).Some? && Stranded(Run(false, INITIAL, steps).value, h)
  {
    var a, s1 := Submitted(INITIAL, h, lane, 1);
    var b, s2 := Asked(s1, h, lane, 1);
    var c, s3 := LostWithLock(s2, h, lane);
    var d, s4 := Asked(s3, h, lane, 2);
    var e, s5 := RefusedByOrphan(s4, h, lane);
    RunConcat(false, INITIAL, a, b);
    RunConcat(false, INITIAL, a + b, c);
    RunConcat(false, INITIAL, a + b + c, d);
    RunConcat(false, INITIAL, a + b + c + d, e);
    steps := a + b + c + d + e;
  }

  lemma {:induction false} LostWithLock(s: State, h: Hash, lane: Lane) returns (steps: seq<Step>, t: State)
    requires s.workers == map[1 := Acquiring(lane, h)] && s.queue == multiset{} && s.locks == map[] && s.orphans == {}
    ensures Run(false, s, steps) == Some(t)
    ensures t == s.(workers := map[], queue := multiset{Extract(lane, h)}, orphans := {(lane, h)})
  {
    steps, t := [], s;
    steps, t := Extend(s, steps, t, AcquireLock(1));
    assert t == s.(workers := map[1 := Handling(lane, h)], locks := map[(lane, h) := 1]);
    steps, t := Extend(s, steps, t, Lose(1));
    assert t.workers == map[] && t.locks == map[];
  }

  lemma {:induction false} RefusedByOrphan(s: State, h: Hash, lane: Lane) returns (steps: seq<Step>, t: State)
    requires s.workers == map[2 := Acquiring(lane, h)] && (lane, h) in s.orphans && (lane, h) !in s.cache
    ensures Run(false, s, steps) == Some(t)
    ensures t == s.(workers := map[])
  {
    steps, t := [], s;
    steps, t := Extend(s, steps, t, AcquireLock(2));
    assert t == s.(workers := map[2 := Refused(lane, h, true)]);
    steps, t := Extend(s, steps, t, ReadCacheAgain(2, true));
    assert t.workers == map[];
  }

  /** A send to the lane that fails after the classification strands the document too. */
  lemma {:induction false} FailedSendStrandsClaim(h: Hash, lane: Lane) returns (steps: seq<Step>)
    ensures Run(false, INITIAL, steps).Some? && Stranded(Run(false, INITIAL, steps).value, h)
  {
    var a, s1 := SubmitAndClaim(INITIAL, h, 1);
    var b, s2 := RoutedAndBroken(s1, h, lane);
    RunConcat(false, INITIAL, a, b);
    steps := a + b;
  }

  lemma {:induction false} RoutedAndBroken(s: State, h: Hash, lane: Lane) returns (steps: seq<Step>, t: State)
    requires s.workers == map[1 := Claimed(h)]
    ensures Run(false, s, steps) == Some(t)
    ensures t == s.(workers := map[])
  {
    steps, t := [], s;
    steps, t := Extend(s, steps, t, ClassifyReturns(1, lane));
    assert t.workers == map[1 := Routing(lane, h)];
    steps, t := Extend(s, steps, t, Break(1));
    assert t.workers == map[];
  }
}
