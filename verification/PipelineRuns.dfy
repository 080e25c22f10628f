/** What the steps of the ingestion pipeline achieve over whole runs: what the cache holds and saves,
    what gets written, and the runs a document goes through. */
module PipelineRuns {
  import opened Wrappers
  import opened Pipeline

  type Slot = (Lane, Hash)

  // ---- what the cache holds ---------------------------------------------------------------------------

  /** The step is a cache write that goes through, by a worker whose handler returned for this slot. */
  predicate Caches(s: State, a: Step, slot: Slot) {
    a.WriteCache? && a.stored && a.w in s.workers && s.workers[a.w] == Caching(slot.0, slot.1)
  }

  predicate CachedIn(fused: bool, s: State, steps: seq<Step>, slot: Slot)
    decreases steps
  {
    steps != [] && Enabled(s, steps[0]) && (Caches(s, steps[0], slot) || CachedIn(fused, Next(fused, s, steps[0]), steps[1..], slot))
  }

  lemma {:induction false} StepCaches(fused: bool, s: State, a: Step, slot: Slot)
    requires Enabled(s, a)
    ensures slot in Next(fused, s, a).cache <==> slot in s.cache || Caches(s, a, slot)
  {
  }

  /** The cache holds exactly the extractions whose cache write went through. */
  lemma {:induction false} CacheIsWritten(fused: bool, s: State, steps: seq<Step>, slot: Slot)
    requires Run(fused, s, steps).Some?
    ensures slot in Run(fused, s, steps).value.cache <==> slot in s.cache || CachedIn(fused, s, steps, slot)
    decreases steps
  {
    if steps != [] {
      StepCaches(fused, s, steps[0], slot);
      CacheIsWritten(fused, Next(fused, s, steps[0]), steps[1..], slot);
    }
  }

  lemma {:induction false} CacheFromScratch(fused: bool, steps: seq<Step>, slot: Slot)
    requires Run(fused, INITIAL, steps).Some?
    ensures slot in Run(fused, INITIAL, steps).value.cache <==> CachedIn(fused, INITIAL, steps, slot)
  {
    CacheIsWritten(fused, INITIAL, steps, slot);
  }

  // ---- what the cache saves ---------------------------------------------------------------------------

  predicate OfLane(t: Task) {
    !t.Classifying? && !t.Claimed? && !t.Routing? && !t.Resolving?
  }

  /** The lane task has not read the cache yet, or has the result already. */
  predicate NeedsNoHandler(t: Task) {
    t.Starting? || t.Releasing? || t.Sending?
  }

  /** Worker `w` is at no point of this slot where the handler runs, ran or may come to run. */
  predicate Spared(s: State, w: Worker, slot: Slot) {
    w in s.workers && OfLane(s.workers[w]) && (s.workers[w].lane, s.workers[w].hash) == slot ==> NeedsNoHandler(s.workers[w])
  }

  /** Every cache entry read can be used. */
  predicate AllReadable(steps: seq<Step>) {
    steps != [] ==>
      && (steps[0].ReadCache? || steps[0].ReadCacheAgain? ==> steps[0].readable)
      && AllReadable(steps[1..])
  }

  /** A readable hit ends the lane task with its result sent on. */
  lemma {:induction false} HitSendsOn(fused: bool, s: State, w: Worker, slot: Slot)
    requires slot in s.cache && w in s.workers
    ensures s.workers[w] == Starting(slot.0, slot.1) ==>
              Next(fused, s, ReadCache(w, true)) == s.(queue := s.queue + multiset{Resolve(slot.1)}, workers := s.workers - {w})
    ensures forall gap :: s.workers[w] == Refused(slot.0, slot.1, gap) ==>
              Next(fused, s, ReadCacheAgain(w, true)) == s.(queue := s.queue + multiset{Resolve(slot.1)}, workers := s.workers - {w})
  {
  }

  lemma {:induction false} OwnStepSpares(fused: bool, s: State, a: Step, slot: Slot)
    requires Enabled(s, a) && OfWorker(a) && slot in s.cache && Spared(s, a.w, slot)
    requires a.ReadCache? || a.ReadCacheAgain? ==> a.readable
    ensures Spared(Next(fused, s, a), a.w, slot)
  {
    if OfLoss(a) {
      LossIsLocal(fused, s, a);
    }
  }

  lemma {:induction false} StepSpares(fused: bool, s: State, a: Step, w: Worker, slot: Slot)
    requires Enabled(s, a) && slot in s.cache && Spared(s, w, slot)
    requires a.ReadCache? || a.ReadCacheAgain? ==> a.readable
    ensures Spared(Next(fused, s, a), w, slot)
  {
    if OfWorker(a) {
      if a.w == w {
        OwnStepSpares(fused, s, a, slot);
      } else {
        OtherWorkersStay(fused, s, a, w);
      }
    }
  }

  /** Once an extraction is cached no worker that had not begun on it runs the handler for it again, as
      long as the cache can be read: not after any number of duplicate deliveries. */
  lemma {:induction false} CachedIsNotExtractedAgain(fused: bool, s: State, steps: seq<Step>, w: Worker, slot: Slot)
    requires slot in s.cache && Spared(s, w, slot) && Run(fused, s, steps).Some? && AllReadable(steps)
    ensures Spared(Run(fused, s, steps).value, w, slot)
    decreases steps
  {
    if steps != [] {
      StepSpares(fused, s, steps[0], w, slot);
      StepCaches(fused, s, steps[0], slot);
      CachedIsNotExtractedAgain(fused, Next(fused, s, steps[0]), steps[1..], w, slot);
    }
  }

  // ---- locks left behind --------------------------------------------------------------------------------

  /** A lock that a lost worker left refuses the slot until it expires, and then it can be taken again. */
  lemma {:induction false} LeftLockExpires(fused: bool, s: State, w: Worker, slot: Slot)
    requires slot in s.orphans && slot !in s.locks && w in s.workers && s.workers[w] == Acquiring(slot.0, slot.1)
    ensures Next(fused, s, AcquireLock(w)).workers[w].Refused?
    ensures var expired := Next(fused, s, ExpireLock(slot.0, slot.1));
            Enabled(expired, AcquireLock(w)) && Next(fused, expired, AcquireLock(w)).workers[w] == Handling(slot.0, slot.1)
  {
  }

  // ---- what gets written --------------------------------------------------------------------------------

  /** The run flushes the document and the store takes it, or refuses it. */
  predicate FlushedIn(fused: bool, s: State, steps: seq<Step>, h: Hash, accepted: bool)
    decreases steps
  {
    steps != [] && Enabled(s, steps[0]) &&
    (steps[0] == Flush(h, accepted) || FlushedIn(fused, Next(fused, s, steps[0]), steps[1..], h, accepted))
  }

  lemma {:induction false} StepWrites(fused: bool, s: State, a: Step, h: Hash)
    requires Enabled(s, a)
    ensures h in Next(fused, s, a).written <==> h in s.written || a == Flush(h, true)
    ensures h in Next(fused, s, a).parked <==> h in s.parked || a == Flush(h, false)
  {
    if OfWorker(a) {
      StepStores(fused, s, a);
    }
  }

  /** A document is in the graph exactly when a flush of it was accepted, in the dead letter queue
      exactly when one was refused. */
  lemma {:induction false} WrittenExactlyWhen(fused: bool, s: State, steps: seq<Step>, h: Hash)
    requires Run(fused, s, steps).Some?
    ensures var t := Run(fused, s, steps).value;
            && (h in t.written <==> h in s.written || FlushedIn(fused, s, steps, h, true))
            && (h in t.parked <==> h in s.parked || FlushedIn(fused, s, steps, h, false))
    decreases steps
  {
    if steps != [] {
      StepWrites(fused, s, steps[0], h);
      WrittenExactlyWhen(fused, Next(fused, s, steps[0]), steps[1..], h);
    }
  }

  // ---- nothing moves without a claim ----------------------------------------------------------------------

  /** Something beyond classification is under way, done or held for the document. */
  ghost predicate Moving(s: State, h: Hash) {
    || h in s.claims || h in s.buffer || h in s.written || h in s.parked
    || (exists m :: m in s.queue && m.hash == h && !m.Classify?)
    || (exists w :: w in s.workers && s.workers[w].hash == h && !s.workers[w].Classifying?)
  }

  /** The step takes the claim of the document. */
  predicate Grants(s: State, a: Step, h: Hash) {
    a.ClaimDocument? && a.w in s.workers && s.workers[a.w] == Classifying(h) && h !in s.claims
  }

  predicate GrantedIn(fused: bool, s: State, steps: seq<Step>, h: Hash)
    decreases steps
  {
    steps != [] && Enabled(s, steps[0]) && (Grants(s, steps[0], h) || GrantedIn(fused, Next(fused, s, steps[0]), steps[1..], h))
  }

  lemma {:induction false} IdleWorkerStep(fused: bool, s: State, a: Step, h: Hash)
    requires Enabled(s, a) && OfWorker(a) && !Moving(s, h) && !Grants(s, a, h) && s.workers[a.w].hash == h
    ensures !Moving(Next(fused, s, a), h)
  {
    assert s.workers[a.w].Classifying?;
    assert a.ClaimDocument? || OfLoss(a);
  }

  lemma {:induction false} OtherWorkerStep(fused: bool, s: State, a: Step, h: Hash)
    requires Enabled(s, a) && OfWorker(a) && !Moving(s, h) && s.workers[a.w].hash != h
    ensures !Moving(Next(fused, s, a), h)
  {
    var s' := Next(fused, s, a);
    OtherClaimsStay(fused, s, a, h);
    StepStores(fused, s, a);
    StepBuffers(fused, s, a, h);
    forall m | m in s'.queue && m.hash == h
      ensures m.Classify?
    {
      StepSends(fused, s, a, m, h);
    }
    StepKeepsHash(fused, s, a);
    forall w | w in s'.workers && s'.workers[w].hash == h
      ensures s'.workers[w].Classifying?
    {
      OtherWorkersStay(fused, s, a, w);
    }
  }

  lemma {:induction false} TakeMovesNothing(fused: bool, s: State, w: Worker, m: Message, h: Hash)
    requires Enabled(s, Take(w, m)) && !Moving(s, h)
    ensures !Moving(Next(fused, s, Take(w, m)), h)
  {
    assert m.hash == h ==> m.Classify?;
  }

  lemma {:induction false} RedeliveryMovesNothing(fused: bool, s: State, w: Worker, h: Hash)
    requires w in s.workers && !Moving(s, h)
    ensures !Moving(Next(fused, s, Redeliver(w)), h)
  {
    assert s.workers[w].hash == h ==> Delivered(s.workers[w]).Classify?;
  }

  lemma {:induction false} OutsideStep(fused: bool, s: State, a: Step, h: Hash)
    requires Enabled(s, a) && !OfWorker(a) && !Moving(s, h)
    ensures !Moving(Next(fused, s, a), h)
  {
    match a {
      case Take(w, m) => TakeMovesNothing(fused, s, w, m, h);
      case Redeliver(w) => RedeliveryMovesNothing(fused, s, w, h);
      case Submit(_) =>
      case Flush(_, _) =>
      case ExpireLock(_, _) =>
    }
  }

  /** Whatever is extracted, resolved, written or parked was claimed first. */
  lemma {:induction false} NothingWithoutClaim(fused: bool, s: State, steps: seq<Step>, h: Hash)
    requires Run(fused, s, steps).Some? && !Moving(s, h) && Moving(Run(fused, s, steps).value, h)
    ensures GrantedIn(fused, s, steps, h)
    decreases steps
  {
    if steps != [] && !Grants(s, steps[0], h) {
      var a := steps[0];
      if !OfWorker(a) {
        OutsideStep(fused, s, a, h);
      } else if s.workers[a.w].hash == h {
        IdleWorkerStep(fused, s, a, h);
      } else {
        OtherWorkerStep(fused, s, a, h);
      }
      NothingWithoutClaim(fused, Next(fused, s, a), steps[1..], h);
    }
  }

  // ---- the runs of a document -----------------------------------------------------------------------------

  /** Worker `w` classifies a submitted document and sends it to its lane. */
  function Ingestion(h: Hash, lane: Lane, w: Worker): seq<Step> {
    [Submit(h), Take(w, Classify(h)), ClaimDocument(w), ClassifyReturns(w, lane), SendToLane(w)]
  }

  function Opening(h: Hash, lane: Lane, w: Worker): seq<Step> {
    [Take(w, Extract(lane, h)), ReadCache(w, true), AcquireLock(w)]
  }

  /** The handler returns, its result is cached and sent on. */
  function Closing(w: Worker): seq<Step> {
    [HandlerReturns(w), WriteCache(w, true), ReleaseLock(w), SendOn(w)]
  }

  /** The handler raises: the claim and then the lock are given back. */
  function GivingUp(w: Worker): seq<Step> {
    [HandlerRaises(w), ReleaseClaim(w), ReleaseLockAfterFailure(w)]
  }

  function Finish(h: Hash, w: Worker): seq<Step> {
    [Take(w, Resolve(h)), ResolveReturns(w), Flush(h, true)]
  }

  /** `s` with worker `w` at a task. */
  function On(s: State, w: Worker, t: Task): State {
    s.(workers := s.workers[w := t])
  }

  ghost predicate Leads(s: State, steps: seq<Step>, t: State) {
    Run(false, s, steps) == Some(t)
  }

  lemma {:induction false} One(s: State, a: Step)
    requires Enabled(s, a)
    ensures Leads(s, [a], Next(false, s, a))
  {
    assert [a][1..] == [];
  }

  lemma {:induction false} Joined(s: State, a: seq<Step>, t: State, b: seq<Step>, u: State)
    requires Leads(s, a, t) && Leads(t, b, u)
    ensures Leads(s, a + b, u)
  {
    RunConcat(false, s, a, b);
  }

  lemma {:induction false} Again(s: State, w: Worker, t: Task, u: Task)
    ensures Goes(On(s, w, t), w, u) == On(s, w, u)
  {
    assert s.workers[w := t][w := u] == s.workers[w := u];
  }

  // One step each, for a worker that was idle before.

  lemma {:induction false} Takes(s: State, w: Worker, m: Message)
    requires w !in s.workers
    ensures Leads(Sends(s, m), [Take(w, m)], On(s, w, Begun(m)))
  {
    One(Sends(s, m), Take(w, m));
    assert s.queue + multiset{m} - multiset{m} == s.queue;
  }

  lemma {:induction false} Claims(s: State, w: Worker, h: Hash)
    requires w !in s.workers && h !in s.claims
    ensures Leads(On(s, w, Classifying(h)), [ClaimDocument(w)], On(s.(claims := s.claims + {h}), w, Claimed(h)))
  {
    One(On(s, w, Classifying(h)), ClaimDocument(w));
    Again(s, w, Classifying(h), Claimed(h));
  }

  lemma {:induction false} Classified(s: State, w: Worker, h: Hash, lane: Lane)
    requires w !in s.workers
    ensures Leads(On(s, w, Claimed(h)), [ClassifyReturns(w, lane)], On(s, w, Routing(lane, h)))
  {
    One(On(s, w, Claimed(h)), ClassifyReturns(w, lane));
    Again(s, w, Claimed(h), Routing(lane, h));
  }

  lemma {:induction false} Back(s: State, w: Worker, t: Task)
    requires w !in s.workers
    ensures Ends(On(s, w, t), w) == s
  {
    assert s.workers[w := t] - {w} == s.workers;
  }

  lemma {:induction false} Routed(s: State, w: Worker, h: Hash, lane: Lane)
    requires w !in s.workers
    ensures Leads(On(s, w, Routing(lane, h)), [SendToLane(w)], Sends(s, Extract(lane, h)))
  {
    One(On(s, w, Routing(lane, h)), SendToLane(w));
    Back(s, w, Routing(lane, h));
  }

  lemma {:induction false} Misses(s: State, w: Worker, h: Hash, lane: Lane)
    requires w !in s.workers && (lane, h) !in s.cache
    ensures Leads(On(s, w, Starting(lane, h)), [ReadCache(w, true)], On(s, w, Acquiring(lane, h)))
  {
    One(On(s, w, Starting(lane, h)), ReadCache(w, true));
    Again(s, w, Starting(lane, h), Acquiring(lane, h));
  }

  lemma {:induction false} Hits(s: State, w: Worker, h: Hash, lane: Lane)
    requires w !in s.workers && (lane, h) in s.cache
    ensures Leads(On(s, w, Starting(lane, h)), [ReadCache(w, true)], Sends(s, Resolve(h)))
  {
    One(On(s, w, Starting(lane, h)), ReadCache(w, true));
    Back(s, w, Starting(lane, h));
  }

  lemma {:induction false} Locks(s: State, w: Worker, h: Hash, lane: Lane)
    requires w !in s.workers && (lane, h) !in s.locks && (lane, h) !in s.orphans
    ensures Leads(On(s, w, Acquiring(lane, h)), [AcquireLock(w)], On(s.(locks := s.locks[(lane, h) := w]), w, Handling(lane, h)))
  {
    One(On(s, w, Acquiring(lane, h)), AcquireLock(w));
    Again(s, w, Acquiring(lane, h), Handling(lane, h));
  }

  lemma {:induction false} Returns(s: State, w: Worker, h: Hash, lane: Lane)
    ensures Leads(On(s, w, Handling(lane, h)), [HandlerReturns(w)], On(s, w, Caching(lane, h)))
  {
    One(On(s, w, Handling(lane, h)), HandlerReturns(w));
    Again(s, w, Handling(lane, h), Caching(lane, h));
  }

  lemma {:induction false} Stores(s: State, w: Worker, h: Hash, lane: Lane)
    ensures Leads(On(s, w, Caching(lane, h)), [WriteCache(w, true)], On(s.(cache := s.cache + {(lane, h)}), w, Releasing(lane, h)))
  {
    One(On(s, w, Caching(lane, h)), WriteCache(w, true));
    Again(s, w, Caching(lane, h), Releasing(lane, h));
  }

  lemma {:induction false} Unlocks(s: State, w: Worker, h: Hash, lane: Lane)
    ensures Leads(On(s, w, Releasing(lane, h)), [ReleaseLock(w)], On(Unlocked(s, lane, h), w, Sending(lane, h)))
  {
    One(On(s, w, Releasing(lane, h)), ReleaseLock(w));
    Again(s, w, Releasing(lane, h), Sending(lane, h));
  }

  lemma {:induction false} SendsOn(s: State, w: Worker, h: Hash, lane: Lane)
    requires w !in s.workers
    ensures Leads(On(s, w, Sending(lane, h)), [SendOn(w)], Sends(s, Resolve(h)))
  {
    One(On(s, w, Sending(lane, h)), SendOn(w));
    Back(s, w, Sending(lane, h));
  }

  lemma {:induction false} Raises(s: State, w: Worker, h: Hash, lane: Lane)
    ensures Leads(On(s, w, Handling(lane, h)), [HandlerRaises(w)], On(s, w, Failing(lane, h)))
  {
    One(On(s, w, Handling(lane, h)), HandlerRaises(w));
    Again(s, w, Handling(lane, h), Failing(lane, h));
  }

  lemma {:induction false} GivesClaim(s: State, w: Worker, h: Hash, lane: Lane)
    ensures Leads(On(s, w, Failing(lane, h)), [ReleaseClaim(w)], On(s.(claims := s.claims - {h}), w, Unlocking(lane, h)))
  {
    One(On(s, w, Failing(lane, h)), ReleaseClaim(w));
    Again(s, w, Failing(lane, h), Unlocking(lane, h));
  }

  lemma {:induction false} GivesLock(s: State, w: Worker, h: Hash, lane: Lane)
    requires w !in s.workers
    ensures Leads(On(s, w, Unlocking(lane, h)), [ReleaseLockAfterFailure(w)], Unlocked(s, lane, h))
  {
    One(On(s, w, Unlocking(lane, h)), ReleaseLockAfterFailure(w));
    Back(Unlocked(s, lane, h), w, Unlocking(lane, h));
  }

  lemma {:induction false} Resolves(s: State, w: Worker, h: Hash)
    requires w !in s.workers
    ensures Leads(On(s, w, Resolving(h)), [ResolveReturns(w)], s.(buffer := s.buffer + multiset{h}))
  {
    One(On(s, w, Resolving(h)), ResolveReturns(w));
    Back(s, w, Resolving(h));
  }

  lemma {:induction false} Flushes(s: State, h: Hash)
    ensures Leads(s.(buffer := s.buffer + multiset{h}), [Flush(h, true)], s.(written := s.written + {h}))
  {
    One(s.(buffer := s.buffer + multiset{h}), Flush(h, true));
    assert s.buffer + multiset{h} - multiset{h} == s.buffer;
  }

  // The parts of a run.

  lemma {:induction false} IngestionRuns(s: State, h: Hash, lane: Lane, w: Worker)
    requires w !in s.workers && h !in s.claims
    ensures Leads(s, Ingestion(h, lane, w), Sends(s.(claims := s.claims + {h}), Extract(lane, h)))
  {
    var c := s.(claims := s.claims + {h});
    One(s, Submit(h));
    Takes(s, w, Classify(h));
    Joined(s, [Submit(h)], Sends(s, Classify(h)), [Take(w, Classify(h))], On(s, w, Classifying(h)));
    Claims(s, w, h);
    Joined(s, [Submit(h)] + [Take(w, Classify(h))], On(s, w, Classifying(h)), [ClaimDocument(w)], On(c, w, Claimed(h)));
    Classified(c, w, h, lane);
    Routed(c, w, h, lane);
    Joined(On(c, w, Claimed(h)), [ClassifyReturns(w, lane)], On(c, w, Routing(lane, h)), [SendToLane(w)], Sends(c, Extract(lane, h)));
    Joined(s, [Submit(h)] + [Take(w, Classify(h))] + [ClaimDocument(w)], On(c, w, Claimed(h)),
           [ClassifyReturns(w, lane)] + [SendToLane(w)], Sends(c, Extract(lane, h)));
    assert Ingestion(h, lane, w) ==
           [Submit(h)] + [Take(w, Classify(h))] + [ClaimDocument(w)] + ([ClassifyReturns(w, lane)] + [SendToLane(w)]);
  }

  lemma {:induction false} OpeningRuns(s: State, h: Hash, lane: Lane, w: Worker)
    requires w !in s.workers && (lane, h) !in s.cache && (lane, h) !in s.locks && (lane, h) !in s.orphans
    ensures Leads(Sends(s, Extract(lane, h)), Opening(h, lane, w), On(s.(locks := s.locks[(lane, h) := w]), w, Handling(lane, h)))
  {
    var start := Sends(s, Extract(lane, h));
    var held := On(s.(locks := s.locks[(lane, h) := w]), w, Handling(lane, h));
    Takes(s, w, Extract(lane, h));
    Misses(s, w, h, lane);
    Joined(start, [Take(w, Extract(lane, h))], On(s, w, Starting(lane, h)), [ReadCache(w, true)], On(s, w, Acquiring(lane, h)));
    Locks(s, w, h, lane);
    Joined(start, [Take(w, Extract(lane, h))] + [ReadCache(w, true)], On(s, w, Acquiring(lane, h)), [AcquireLock(w)], held);
    assert Opening(h, lane, w) == [Take(w, Extract(lane, h))] + [ReadCache(w, true)] + [AcquireLock(w)];
  }

  lemma {:induction false} ClosingRuns(s: State, h: Hash, lane: Lane, w: Worker)
    requires w !in s.workers
    ensures Leads(On(s, w, Handling(lane, h)), Closing(w),
                  Sends(Unlocked(s.(cache := s.cache + {(lane, h)}), lane, h), Resolve(h)))
  {
    var start, c := On(s, w, Handling(lane, h)), s.(cache := s.cache + {(lane, h)});
    Returns(s, w, h, lane);
    Stores(s, w, h, lane);
    Joined(start, [HandlerReturns(w)], On(s, w, Caching(lane, h)), [WriteCache(w, true)], On(c, w, Releasing(lane, h)));
    Unlocks(c, w, h, lane);
    var u := Unlocked(c, lane, h);
    Joined(start, [HandlerReturns(w)] + [WriteCache(w, true)], On(c, w, Releasing(lane, h)), [ReleaseLock(w)],
           On(u, w, Sending(lane, h)));
    SendsOn(u, w, h, lane);
    Joined(start, [HandlerReturns(w)] + [WriteCache(w, true)] + [ReleaseLock(w)], On(u, w, Sending(lane, h)), [SendOn(w)],
           Sends(u, Resolve(h)));
    assert Closing(w) == [HandlerReturns(w)] + [WriteCache(w, true)] + [ReleaseLock(w)] + [SendOn(w)];
  }

  lemma {:induction false} GivingUpRuns(s: State, h: Hash, lane: Lane, w: Worker)
    requires w !in s.workers
    ensures Leads(On(s, w, Handling(lane, h)), GivingUp(w), Unlocked(s.(claims := s.claims - {h}), lane, h))
  {
    var start, c := On(s, w, Handling(lane, h)), s.(claims := s.claims - {h});
    Raises(s, w, h, lane);
    GivesClaim(s, w, h, lane);
    Joined(start, [HandlerRaises(w)], On(s, w, Failing(lane, h)), [ReleaseClaim(w)], On(c, w, Unlocking(lane, h)));
    GivesLock(c, w, h, lane);
    Joined(start, [HandlerRaises(w)] + [ReleaseClaim(w)], On(c, w, Unlocking(lane, h)), [ReleaseLockAfterFailure(w)],
           Unlocked(c, lane, h));
    assert GivingUp(w) == [HandlerRaises(w)] + [ReleaseClaim(w)] + [ReleaseLockAfterFailure(w)];
  }

  lemma {:induction false} FinishRuns(s: State, h: Hash, w: Worker)
    requires w !in s.workers
    ensures Leads(Sends(s, Resolve(h)), Finish(h, w), s.(written := s.written + {h}))
  {
    var start, b := Sends(s, Resolve(h)), s.(buffer := s.buffer + multiset{h});
    Takes(s, w, Resolve(h));
    Resolves(s, w, h);
    Joined(start, [Take(w, Resolve(h))], On(s, w, Resolving(h)), [ResolveReturns(w)], b);
    Flushes(s, h);
    Joined(start, [Take(w, Resolve(h))] + [ResolveReturns(w)], b, [Flush(h, true)], s.(written := s.written + {h}));
    assert Finish(h, w) == [Take(w, Resolve(h))] + [ResolveReturns(w)] + [Flush(h, true)];
  }

  // From any state in which nothing is under way for the document.

  ghost predicate Fresh(s: State, h: Hash, lane: Lane, w: Worker) {
    w !in s.workers && h !in s.claims && (lane, h) !in s.cache && (lane, h) !in s.locks && (lane, h) !in s.orphans
  }

  function Begin(h: Hash, lane: Lane, w: Worker): seq<Step> {
    Ingestion(h, lane, w) + Opening(h, lane, w)
  }

  /** The state with the document claimed, and the worker holding the lock and running the handler. */
  function InHandler(s: State, h: Hash, lane: Lane, w: Worker): State {
    On(s.(claims := s.claims + {h}, locks := s.locks[(lane, h) := w]), w, Handling(lane, h))
  }

  lemma {:induction false} BeginRuns(s: State, h: Hash, lane: Lane, w: Worker)
    requires Fresh(s, h, lane, w)
    ensures Leads(s, Begin(h, lane, w), InHandler(s, h, lane, w))
  {
    var c := s.(claims := s.claims + {h});
    IngestionRuns(s, h, lane, w);
    OpeningRuns(c, h, lane, w);
    Joined(s, Ingestion(h, lane, w), Sends(c, Extract(lane, h)), Opening(h, lane, w), InHandler(s, h, lane, w));
  }

  lemma {:induction false} Relocked(s: State, h: Hash, lane: Lane, w: Worker)
    requires (lane, h) !in s.locks && (lane, h) !in s.orphans
    ensures Unlocked(s.(locks := s.locks[(lane, h) := w]), lane, h) == s
  {
    assert s.locks[(lane, h) := w] - {(lane, h)} == s.locks && s.orphans - {(lane, h)} == s.orphans;
  }

  /** A new document goes straight through: claimed, extracted, cached, resolved and written; nothing
      else of the state is different afterwards. */
  lemma {:induction false} DocumentIsWritten(s: State, h: Hash, lane: Lane, w: Worker)
    requires Fresh(s, h, lane, w)
    ensures Leads(s, Begin(h, lane, w) + Closing(w) + Finish(h, w),
                  s.(claims := s.claims + {h}, cache := s.cache + {(lane, h)}, written := s.written + {h}))
  {
    var c := s.(claims := s.claims + {h}, locks := s.locks[(lane, h) := w]);
    var done := s.(claims := s.claims + {h}, cache := s.cache + {(lane, h)});
    BeginRuns(s, h, lane, w);
    ClosingRuns(c, h, lane, w);
    Relocked(done, h, lane, w);
    Joined(s, Begin(h, lane, w), InHandler(s, h, lane, w), Closing(w), Sends(done, Resolve(h)));
    FinishRuns(done, h, w);
    Joined(s, Begin(h, lane, w) + Closing(w), Sends(done, Resolve(h)), Finish(h, w), done.(written := s.written + {h}));
  }

  /** A lane task delivered twice, the second time to a worker that starts after the first has
      finished: it reads the cache and sends the same result on, without lock or handler. */
  lemma {:induction false} SecondDeliveryHits(s: State, h: Hash, lane: Lane, w: Worker, v: Worker)
    requires Fresh(s, h, lane, w) && v !in s.workers
    ensures Leads(s, Begin(h, lane, w) + [Redeliver(w)] + Closing(w) + [Take(v, Extract(lane, h))] + [ReadCache(v, true)],
                  s.(queue := s.queue + multiset{Resolve(h), Resolve(h)}, claims := s.claims + {h}, cache := s.cache + {(lane, h)}))
  {
    var c := s.(claims := s.claims + {h}, locks := s.locks[(lane, h) := w]);
    var done := s.(claims := s.claims + {h}, cache := s.cache + {(lane, h)});
    var m := Extract(lane, h);
    BeginRuns(s, h, lane, w);
    One(InHandler(s, h, lane, w), Redeliver(w));
    var again := Sends(InHandler(s, h, lane, w), m);
    Joined(s, Begin(h, lane, w), InHandler(s, h, lane, w), [Redeliver(w)], again);
    ClosingRuns(Sends(c, m), h, lane, w);
    Relocked(Sends(done, m), h, lane, w);
    var sent := Sends(Sends(done, Resolve(h)), m);
    assert s.queue + multiset{m} + multiset{Resolve(h)} == s.queue + multiset{Resolve(h)} + multiset{m};
    Joined(s, Begin(h, lane, w) + [Redeliver(w)], again, Closing(w), sent);
    Takes(Sends(done, Resolve(h)), v, m);
    var on := On(Sends(done, Resolve(h)), v, Starting(lane, h));
    Joined(s, Begin(h, lane, w) + [Redeliver(w)] + Closing(w), sent, [Take(v, m)], on);
    Hits(Sends(done, Resolve(h)), v, h, lane);
    var end := Sends(Sends(done, Resolve(h)), Resolve(h));
    Joined(s, Begin(h, lane, w) + [Redeliver(w)] + Closing(w) + [Take(v, m)], on, [ReadCache(v, true)], end);
    assert s.queue + multiset{Resolve(h)} + multiset{Resolve(h)} == s.queue + multiset{Resolve(h), Resolve(h)};
  }

  /** A failed document leaves nothing behind, so that resubmitting it heals it: it is claimed,
      extracted and written the second time. */
  lemma {:induction false} ResubmissionHeals(s: State, h: Hash, lane: Lane, w: Worker)
    requires Fresh(s, h, lane, w)
    ensures Leads(s, Begin(h, lane, w) + GivingUp(w), s)
    ensures Leads(s, Begin(h, lane, w) + GivingUp(w) + (Begin(h, lane, w) + Closing(w) + Finish(h, w)),
                  s.(claims := s.claims + {h}, cache := s.cache + {(lane, h)}, written := s.written + {h}))
  {
    var c := s.(claims := s.claims + {h}, locks := s.locks[(lane, h) := w]);
    BeginRuns(s, h, lane, w);
    GivingUpRuns(c, h, lane, w);
    assert s.claims + {h} - {h} == s.claims;
    Relocked(s, h, lane, w);
    Joined(s, Begin(h, lane, w), InHandler(s, h, lane, w), GivingUp(w), s);
    DocumentIsWritten(s, h, lane, w);
    Joined(s, Begin(h, lane, w) + GivingUp(w), s, Begin(h, lane, w) + Closing(w) + Finish(h, w),
           s.(claims := s.claims + {h}, cache := s.cache + {(lane, h)}, written := s.written + {h}));
  }
}
