/** The preview service's admission, single flight and worker permits
    (crates/labello-storage/src/preview.rs). A running job is a request that will finish. */
module PreviewPool {
  import opened Domain
  import opened Totals

  type RequestId = nat
  type CacheKey = nat
  type FlightId = nat

  datatype PreviewConfig = PreviewConfig(
    maxSourceBytes: nat,
    maxPixels: nat,
    maxDecodedBytes: nat,
    workers: nat,
    cacheBytes: nat,
    cacheEntries: nat)
  {
    predicate Valid() {
      && 0 < maxSourceBytes <= 512 * 1024 * 1024
      && 0 < maxPixels <= 100_000_000
      && 0 < maxDecodedBytes <= 1024 * 1024 * 1024
      && 1 <= workers <= 8
      && 0 < cacheBytes <= 1024 * 1024 * 1024 * 1024
      && 1 <= cacheEntries <= 16_384
    }
  }

  /** A cached preview goes through the flight of its key; full detail and the legacy fallback go
      straight to a worker. */
  datatype Kind = Preview(key: CacheKey, thumbnail: bool) | Direct

  datatype Phase = Admitted | AwaitingFlight | HoldingFlight | HoldingThumbnail | Running

  datatype Request = Request(kind: Kind, phase: Phase, flight: Option<FlightId>)

  predicate IsThumbnail(r: Request) { r.kind.Preview? && r.kind.thumbnail }
  predicate IsForeground(r: Request) { !IsThumbnail(r) }
  predicate HoldsWorker(r: Request) { r.phase == Running }
  predicate HoldsThumbnailPermit(r: Request) { IsThumbnail(r) && r.phase in {HoldingThumbnail, Running} }
  predicate HoldsGuard(r: Request) {
    r.kind.Preview? && r.phase in {HoldingFlight, HoldingThumbnail, Running}
  }

  datatype Pool = Pool(
    workers: nat,
    workersFree: nat,
    thumbnailsFree: nat,
    foregroundFree: nat,
    thumbnailRequestsFree: nat,
    flights: map<CacheKey, FlightId>,
    nextFlight: FlightId,
    requests: map<RequestId, Request>,
    nextRequest: RequestId)

  function ThumbnailSlots(workers: nat): nat {
    if workers <= 1 then 1 else workers - 1
  }

  function RequestSlots(workers: nat): nat {
    workers * 16
  }

  function Fresh(workers: nat): Pool {
    Pool(workers, workers, ThumbnailSlots(workers), RequestSlots(workers), RequestSlots(workers),
         map[], 0, map[], 0)
  }

  /** The flight is still referenced by some request. */
  predicate Alive(requests: map<RequestId, Request>, flight: FlightId) {
    exists r | r in requests :: requests[r].flight == Some(flight)
  }

  function Retained(flights: map<CacheKey, FlightId>, requests: map<RequestId, Request>): map<CacheKey, FlightId> {
    map key | key in flights && Alive(requests, flights[key]) :: flights[key]
  }

  datatype Step =
    | Admit(kind: Kind)
    | JoinFlight(id: RequestId)
    | TakeFlight(id: RequestId)
    | TakeThumbnail(id: RequestId)
    | TakeWorker(id: RequestId)
    | Finish(id: RequestId)
    | Cancel(id: RequestId)

  predicate Guarded(requests: map<RequestId, Request>, flight: Option<FlightId>) {
    exists r | r in requests :: HoldsGuard(requests[r]) && requests[r].flight == flight
  }

  predicate ReadyForWorker(r: Request) {
    match r.kind
    case Direct => r.phase == Admitted
    case Preview(_, thumbnail) => r.phase == (if thumbnail then HoldingThumbnail else HoldingFlight)
  }

  predicate Enabled(p: Pool, step: Step) {
    match step
    case Admit(kind) => (if kind.Preview? && kind.thumbnail then p.thumbnailRequestsFree else p.foregroundFree) > 0
    case JoinFlight(id) => id in p.requests && p.requests[id].kind.Preview? && p.requests[id].phase == Admitted
    case TakeFlight(id) =>
      && id in p.requests && p.requests[id].phase == AwaitingFlight
      && !Guarded(p.requests, p.requests[id].flight)
    case TakeThumbnail(id) =>
      && id in p.requests && p.requests[id].phase == HoldingFlight
      && IsThumbnail(p.requests[id]) && p.thumbnailsFree > 0
    case TakeWorker(id) => id in p.requests && ReadyForWorker(p.requests[id]) && p.workersFree > 0
    case Finish(id) => id in p.requests && p.requests[id].phase == Running
    case Cancel(id) => id in p.requests
  }

  function Release(p: Pool, id: RequestId): Pool
    requires id in p.requests
  {
    var r := p.requests[id];
    p.(workersFree := p.workersFree + (if HoldsWorker(r) then 1 else 0),
       thumbnailsFree := p.thumbnailsFree + (if HoldsThumbnailPermit(r) then 1 else 0),
       foregroundFree := p.foregroundFree + (if IsForeground(r) then 1 else 0),
       thumbnailRequestsFree := p.thumbnailRequestsFree + (if IsThumbnail(r) then 1 else 0),
       requests := p.requests - {id})
  }

  function Advance(p: Pool, id: RequestId, phase: Phase): Pool
    requires id in p.requests
  {
    p.(requests := p.requests[id := p.requests[id].(phase := phase)])
  }

  function Next(p: Pool, step: Step): Pool
    requires Enabled(p, step)
  {
    match step
    case Admit(kind) =>
      var r := Request(kind, Admitted, None);
      p.(foregroundFree := p.foregroundFree - (if IsForeground(r) then 1 else 0),
         thumbnailRequestsFree := p.thumbnailRequestsFree - (if IsThumbnail(r) then 1 else 0),
         requests := p.requests[p.nextRequest := r],
         nextRequest := p.nextRequest + 1)
    case JoinFlight(id) =>
      var retained, key := Retained(p.flights, p.requests), p.requests[id].kind.key;
      var flight := if key in retained then retained[key] else p.nextFlight;
      p.(flights := retained[key := flight],
         nextFlight := if key in retained then p.nextFlight else p.nextFlight + 1,
         requests := p.requests[id := p.requests[id].(phase := AwaitingFlight, flight := Some(flight))])
    case TakeFlight(id) => Advance(p, id, HoldingFlight)
    case TakeThumbnail(id) => Advance(p, id, HoldingThumbnail).(thumbnailsFree := p.thumbnailsFree - 1)
    case TakeWorker(id) => Advance(p, id, Running).(workersFree := p.workersFree - 1)
    case Finish(id) => Release(p, id)
    // A started job keeps running, and keeps everything it holds, when its caller goes away.
    case Cancel(id) => if p.requests[id].phase == Running then p else Release(p, id)
  }

  // ---------------------------------------------------------------------------------------------
  // What every step keeps
  // ---------------------------------------------------------------------------------------------

  function Holders(requests: map<RequestId, Request>, holds: Request -> bool): set<RequestId> {
    set id | id in requests && holds(requests[id])
  }

  lemma SplitOff(ids: set<RequestId>, id: RequestId)
    ensures |ids| == |ids - {id}| + (if id in ids then 1 else 0)
  {
    if id !in ids { assert ids - {id} == ids; }
  }

  lemma HoldersReplaced(requests: map<RequestId, Request>, id: RequestId, r: Request, holds: Request -> bool)
    ensures |Holders(requests[id := r], holds)|
         == |Holders(requests, holds)|
            - (if id in requests && holds(requests[id]) then 1 else 0) + (if holds(r) then 1 else 0)
  {
    var before, after := Holders(requests, holds), Holders(requests[id := r], holds);
    var rest := before - {id};
    assert id in before <==> id in requests && holds(requests[id]);
    assert id in after <==> holds(r);
    assert after - {id} == rest;
    SplitOff(before, id);
    SplitOff(after, id);
  }

  lemma HoldersRemoved(requests: map<RequestId, Request>, id: RequestId, holds: Request -> bool)
    requires id in requests
    ensures |Holders(requests - {id}, holds)| == |Holders(requests, holds)| - (if holds(requests[id]) then 1 else 0)
  {
    var before := Holders(requests, holds);
    assert Holders(requests - {id}, holds) == before - {id};
    assert id in before <==> holds(requests[id]);
    SplitOff(before, id);
  }

  /** Every permit is either free or held by a live request. */
  ghost predicate PermitsConserved(p: Pool) {
    && p.workersFree + |Holders(p.requests, HoldsWorker)| == p.workers
    && p.thumbnailsFree + |Holders(p.requests, HoldsThumbnailPermit)| == ThumbnailSlots(p.workers)
    && p.foregroundFree + |Holders(p.requests, IsForeground)| == RequestSlots(p.workers)
    && p.thumbnailRequestsFree + |Holders(p.requests, IsThumbnail)| == RequestSlots(p.workers)
  }

  ghost predicate RequestOk(p: Pool, r: Request) {
    match r.kind
    case Direct => r.phase in {Admitted, Running} && r.flight.None?
    case Preview(key, thumbnail) =>
      && (r.phase == Admitted <==> r.flight.None?)
      && (r.phase == HoldingThumbnail ==> thumbnail)
      && (r.flight.Some? ==> key in p.flights && p.flights[key] == r.flight.value)
  }

  /** The flight table never hands out two live flights for one key, nor one flight for two keys. */
  ghost predicate FlightsOk(p: Pool) {
    && (forall id :: id in p.requests ==> RequestOk(p, p.requests[id]) && id < p.nextRequest)
    && (forall key :: key in p.flights ==> p.flights[key] < p.nextFlight)
    && (forall a, b :: a in p.flights && b in p.flights && p.flights[a] == p.flights[b] ==> a == b)
  }

  ghost predicate GuardsExclusive(p: Pool) {
    forall a, b :: a in p.requests && b in p.requests && a != b
                   && HoldsGuard(p.requests[a]) && HoldsGuard(p.requests[b]) ==>
      p.requests[a].flight != p.requests[b].flight
  }

  ghost predicate Inv(p: Pool) {
    1 <= p.workers <= 8 && PermitsConserved(p) && FlightsOk(p) && GuardsExclusive(p)
  }

  lemma FreshInv(workers: nat)
    requires 1 <= workers <= 8
    ensures Inv(Fresh(workers))
  {
    var none: map<RequestId, Request> := map[];
    assert Holders(none, HoldsWorker) == {} && Holders(none, HoldsThumbnailPermit) == {};
    assert Holders(none, IsForeground) == {} && Holders(none, IsThumbnail) == {};
  }

  function Bit(b: bool): int {
    if b then 1 else 0
  }

  /** Installing a request conserves permits if the counters move against what it holds. */
  lemma ReplacedPermits(p: Pool, p': Pool, id: RequestId, r: Request, had: bool)
    requires PermitsConserved(p) && p'.workers == p.workers && p'.requests == p.requests[id := r]
    requires had <==> id in p.requests
    requires p'.workersFree - p.workersFree
          == Bit(had && HoldsWorker(p.requests[id])) - Bit(HoldsWorker(r))
    requires p'.thumbnailsFree - p.thumbnailsFree
          == Bit(had && HoldsThumbnailPermit(p.requests[id])) - Bit(HoldsThumbnailPermit(r))
    requires p'.foregroundFree - p.foregroundFree
          == Bit(had && IsForeground(p.requests[id])) - Bit(IsForeground(r))
    requires p'.thumbnailRequestsFree - p.thumbnailRequestsFree
          == Bit(had && IsThumbnail(p.requests[id])) - Bit(IsThumbnail(r))
    ensures PermitsConserved(p')
  {
    HoldersReplaced(p.requests, id, r, HoldsWorker);
    HoldersReplaced(p.requests, id, r, HoldsThumbnailPermit);
    HoldersReplaced(p.requests, id, r, IsForeground);
    HoldersReplaced(p.requests, id, r, IsThumbnail);
  }

  lemma AdmitConservesPermits(p: Pool, kind: Kind)
    requires Inv(p) && Enabled(p, Admit(kind))
    ensures PermitsConserved(Next(p, Admit(kind)))
  {
    ReplacedPermits(p, Next(p, Admit(kind)), p.nextRequest, Request(kind, Admitted, None), false);
  }

  lemma ForwardConservesPermits(p: Pool, step: Step)
    requires Inv(p) && Forward(step) && !step.Finish? && Enabled(p, step)
    ensures PermitsConserved(Next(p, step))
  {
    assert RequestOk(p, p.requests[step.id]);
    ReplacedPermits(p, Next(p, step), step.id, Next(p, step).requests[step.id], true);
  }

  lemma StepConservesPermits(p: Pool, step: Step)
    requires Inv(p) && Enabled(p, step)
    ensures PermitsConserved(Next(p, step))
  {
    match step {
      case Admit(kind) => AdmitConservesPermits(p, kind);
      case Finish(id) => ReleaseConservesPermits(p, id);
      case Cancel(id) => ReleaseConservesPermits(p, id);
      case _ => ForwardConservesPermits(p, step);
    }
  }

  lemma ReleaseConservesPermits(p: Pool, id: RequestId)
    requires PermitsConserved(p) && id in p.requests
    ensures PermitsConserved(Release(p, id))
  {
    HoldersRemoved(p.requests, id, HoldsWorker);
    HoldersRemoved(p.requests, id, HoldsThumbnailPermit);
    HoldersRemoved(p.requests, id, IsForeground);
    HoldersRemoved(p.requests, id, IsThumbnail);
  }

  lemma JoinKeepsFlights(p: Pool, id: RequestId)
    requires FlightsOk(p) && Enabled(p, JoinFlight(id))
    ensures FlightsOk(Next(p, JoinFlight(id)))
  {
    var p' := Next(p, JoinFlight(id));
    forall other | other in p'.requests ensures RequestOk(p', p'.requests[other]) {
      if other != id && p.requests[other].flight.Some? {
        assert RequestOk(p, p.requests[other]);
        assert Alive(p.requests, p.requests[other].flight.value);
      }
    }
  }

  lemma StepKeepsFlights(p: Pool, step: Step)
    requires FlightsOk(p) && Enabled(p, step)
    ensures FlightsOk(Next(p, step))
  {
    if step.JoinFlight? {
      JoinKeepsFlights(p, step.id);
    } else {
      var p' := Next(p, step);
      forall id | id in p'.requests ensures RequestOk(p', p'.requests[id]) {
        if id in p.requests { assert RequestOk(p, p.requests[id]); }
      }
    }
  }

  lemma StepKeepsInv(p: Pool, step: Step)
    requires Inv(p) && Enabled(p, step)
    ensures Inv(Next(p, step))
  {
    StepConservesPermits(p, step);
    StepKeepsFlights(p, step);
  }

  // ---------------------------------------------------------------------------------------------
  // Safety
  // ---------------------------------------------------------------------------------------------

  ghost predicate IsRun(p: Pool, steps: seq<Step>)
    decreases |steps|
  {
    steps == [] || (Enabled(p, steps[0]) && IsRun(Next(p, steps[0]), steps[1..]))
  }

  ghost function Final(p: Pool, steps: seq<Step>): Pool
    requires IsRun(p, steps)
    decreases |steps|
  {
    if steps == [] then p else Final(Next(p, steps[0]), steps[1..])
  }

  lemma {:induction false} RunKeepsInv(p: Pool, steps: seq<Step>)
    requires Inv(p) && IsRun(p, steps)
    ensures Inv(Final(p, steps)) && Final(p, steps).workers == p.workers
    decreases |steps|
  {
    if steps != [] {
      StepKeepsInv(p, steps[0]);
      RunKeepsInv(Next(p, steps[0]), steps[1..]);
    }
  }

  /** Along every run, cancellations included: one job per key, no more jobs than workers, no more
      thumbnails than their share, and every permit accounted for. */
  lemma RunIsSafe(workers: nat, steps: seq<Step>, a: RequestId, b: RequestId)
    requires 1 <= workers <= 8 && IsRun(Fresh(workers), steps)
    ensures var p := Final(Fresh(workers), steps);
            && PermitsConserved(p)
            && |Holders(p.requests, HoldsWorker)| <= workers
            && |Holders(p.requests, HoldsThumbnailPermit)| <= ThumbnailSlots(workers)
            && (a in p.requests && b in p.requests && a != b
                && HoldsGuard(p.requests[a]) && HoldsGuard(p.requests[b]) ==>
                  p.requests[a].kind.key != p.requests[b].kind.key)
  {
    FreshInv(workers);
    RunKeepsInv(Fresh(workers), steps);
    var p := Final(Fresh(workers), steps);
    if a in p.requests { assert RequestOk(p, p.requests[a]); }
    if b in p.requests { assert RequestOk(p, p.requests[b]); }
  }

  function RunningThumbnails(p: Pool): set<RequestId> {
    set id | id in p.requests && IsThumbnail(p.requests[id]) && HoldsWorker(p.requests[id])
  }

  /** With two workers or more, thumbnails alone can never occupy every worker. */
  lemma ThumbnailsLeaveAWorker(workers: nat, steps: seq<Step>)
    requires 2 <= workers <= 8 && IsRun(Fresh(workers), steps)
    ensures |RunningThumbnails(Final(Fresh(workers), steps))| < workers
  {
    RunIsSafe(workers, steps, 0, 0);
    var p := Final(Fresh(workers), steps);
    SubsetCardinality(RunningThumbnails(p), Holders(p.requests, HoldsThumbnailPermit));
  }

  /** A request is turned away exactly when its own class is full; the other class has no say. */
  lemma AdmissionIsPerClass(workers: nat, steps: seq<Step>, kind: Kind)
    requires 1 <= workers <= 8 && IsRun(Fresh(workers), steps)
    ensures var p := Final(Fresh(workers), steps);
            if kind.Preview? && kind.thumbnail then
              !Enabled(p, Admit(kind)) <==> |Holders(p.requests, IsThumbnail)| == workers * 16
            else
              !Enabled(p, Admit(kind)) <==> |Holders(p.requests, IsForeground)| == workers * 16
  {
    FreshInv(workers);
    RunKeepsInv(Fresh(workers), steps);
  }

  // ---------------------------------------------------------------------------------------------
  // What a run says
  // ---------------------------------------------------------------------------------------------

  /** The kinds of the requests admitted in a run; a request's id is its place among them. */
  function Kinds(steps: seq<Step>): seq<Kind> {
    if steps == [] then []
    else Kinds(steps[..|steps| - 1]) + match steps[|steps| - 1] case Admit(kind) => [kind] case _ => []
  }

  /** The jobs that were started and have not finished, whether or not their callers gave up. */
  function Jobs(steps: seq<Step>): set<RequestId> {
    if steps == [] then {}
    else
      var before := Jobs(steps[..|steps| - 1]);
      match steps[|steps| - 1]
      case TakeWorker(id) => before + {id}
      case Finish(id) => before - {id}
      case _ => before
  }

  /** The requests that were admitted and are neither finished nor given up before their job started. */
  function Present(steps: seq<Step>): set<RequestId> {
    if steps == [] then {}
    else
      var init := steps[..|steps| - 1];
      match steps[|steps| - 1]
      case Admit(_) => Present(init) + {|Kinds(init)|}
      case Finish(id) => Present(init) - {id}
      case Cancel(id) => if id in Jobs(init) then Present(init) else Present(init) - {id}
      case _ => Present(init)
  }

  /** The pool records of a request what its run says about it. */
  ghost predicate Tells(p: Pool, steps: seq<Step>, id: RequestId) {
    && (id in p.requests <==> id in Present(steps))
    && (id in Jobs(steps) ==> id in p.requests)
    && (id >= p.nextRequest ==>
          JoinFlight(id) !in steps && TakeFlight(id) !in steps && TakeThumbnail(id) !in steps)
    && (id in p.requests ==>
          var r := p.requests[id];
          && id < |Kinds(steps)| && r.kind == Kinds(steps)[id]
          && (r.phase == Running <==> id in Jobs(steps))
          && (r.phase == Admitted && r.kind.Preview? <==> r.kind.Preview? && JoinFlight(id) !in steps)
          && (HoldsGuard(r) <==> TakeFlight(id) in steps)
          && (HoldsThumbnailPermit(r) <==> TakeThumbnail(id) in steps))
  }

  lemma {:induction false} RunSnoc(p: Pool, steps: seq<Step>, last: Step)
    requires IsRun(p, steps + [last])
    ensures IsRun(p, steps) && Enabled(Final(p, steps), last)
    ensures Final(p, steps + [last]) == Next(Final(p, steps), last)
    decreases |steps|
  {
    if steps != [] {
      assert (steps + [last])[1..] == steps[1..] + [last];
      RunSnoc(Next(p, steps[0]), steps[1..], last);
    } else {
      assert (steps + [last])[1..] == [];
    }
  }

  lemma {:induction false} RunTells(workers: nat, steps: seq<Step>, id: RequestId)
    requires 1 <= workers <= 8 && IsRun(Fresh(workers), steps)
    ensures Tells(Final(Fresh(workers), steps), steps, id)
    ensures Final(Fresh(workers), steps).nextRequest == |Kinds(steps)|
  {
    if steps != [] {
      var init, last := steps[..|steps| - 1], steps[|steps| - 1];
      assert steps == init + [last];
      RunSnoc(Fresh(workers), init, last);
      RunTells(workers, init, id);
      FreshInv(workers);
      RunKeepsInv(Fresh(workers), init);
      StepTells(Final(Fresh(workers), init), init, last, id);
    }
  }

  lemma StepTells(p: Pool, steps: seq<Step>, last: Step, id: RequestId)
    requires Inv(p) && Enabled(p, last) && Tells(p, steps, id) && p.nextRequest == |Kinds(steps)|
    ensures Tells(Next(p, last), steps + [last], id)
    ensures Next(p, last).nextRequest == |Kinds(steps + [last])|
  {
    var longer := steps + [last];
    assert longer[..|longer| - 1] == steps && longer[|longer| - 1] == last;
    if id in p.requests { assert RequestOk(p, p.requests[id]); }
  }

  predicate ThumbnailKind(kind: Kind) { kind.Preview? && kind.thumbnail }

  function PresentOf(steps: seq<Step>, thumbnail: bool): set<RequestId> {
    set id | id in Present(steps) && id < |Kinds(steps)| && ThumbnailKind(Kinds(steps)[id]) == thumbnail
  }

  /** The requests whose thumbnail slot was granted and is not back yet. */
  function Slots(steps: seq<Step>): set<RequestId> {
    set id | id in Present(steps) && TakeThumbnail(id) in steps
  }

  /** The permits out are those the run granted and has not had back. */
  lemma HoldersOfRun(workers: nat, steps: seq<Step>)
    requires 1 <= workers <= 8 && IsRun(Fresh(workers), steps)
    ensures var p := Final(Fresh(workers), steps);
            && Inv(p) && p.workers == workers
            && Holders(p.requests, HoldsWorker) == Jobs(steps)
            && Holders(p.requests, HoldsThumbnailPermit) == Slots(steps)
            && Holders(p.requests, IsThumbnail) == PresentOf(steps, true)
            && Holders(p.requests, IsForeground) == PresentOf(steps, false)
  {
    FreshInv(workers);
    RunKeepsInv(Fresh(workers), steps);
    var requests := Final(Fresh(workers), steps).requests;
    forall id
      ensures id in Holders(requests, HoldsWorker) <==> id in Jobs(steps)
      ensures id in Holders(requests, HoldsThumbnailPermit) <==> id in Slots(steps)
      ensures id in Holders(requests, IsThumbnail) <==> id in PresentOf(steps, true)
      ensures id in Holders(requests, IsForeground) <==> id in PresentOf(steps, false)
    {
      RunTells(workers, steps, id);
    }
  }

  /** Counting jobs from the steps alone, so that one whose caller gave up still counts: never more than there are
      workers, thumbnails never more than their share, and never two for one preview. */
  lemma StartedJobsAreSafe(workers: nat, steps: seq<Step>, a: RequestId, b: RequestId)
    requires 1 <= workers <= 8 && IsRun(Fresh(workers), steps)
    ensures |Jobs(steps)| <= workers
    ensures |Jobs(steps) * PresentOf(steps, true)| <= if workers == 1 then 1 else workers - 1
    ensures forall id :: id in Jobs(steps) ==> id < |Kinds(steps)|
    ensures a in Jobs(steps) && b in Jobs(steps) && a != b && Kinds(steps)[a].Preview? && Kinds(steps)[b].Preview?
            ==> Kinds(steps)[a].key != Kinds(steps)[b].key
  {
    HoldersOfRun(workers, steps);
    RunIsSafe(workers, steps, a, b);
    forall id | id in Jobs(steps) ensures id < |Kinds(steps)| { RunTells(workers, steps, id); }
    RunTells(workers, steps, a);
    RunTells(workers, steps, b);
    SubsetCardinality(Jobs(steps) * PresentOf(steps, true), Slots(steps));
  }

  /** When a request may move on, in terms of the steps so far. It is let in while its class has fewer than sixteen
      requests for each worker, gets the flight of its preview when no other request has it, a thumbnail then one of
      the slots that leave a worker free if there are two, and last a worker. */
  lemma GrantedExactly(workers: nat, steps: seq<Step>, kind: Kind, id: RequestId)
    requires 1 <= workers <= 8 && IsRun(Fresh(workers), steps)
    ensures var p := Final(Fresh(workers), steps);
            && (Enabled(p, Admit(kind)) <==> |PresentOf(steps, ThumbnailKind(kind))| < 16 * workers)
            && (Enabled(p, TakeThumbnail(id))
                <==> && id in PresentOf(steps, true) && TakeFlight(id) in steps && TakeThumbnail(id) !in steps
                     && |Slots(steps)| < if workers == 1 then 1 else workers - 1)
            && (Enabled(p, TakeWorker(id))
                <==> && id in Present(steps) && id !in Jobs(steps) && id < |Kinds(steps)|
                     && (Kinds(steps)[id].Preview? ==> TakeFlight(id) in steps)
                     && (ThumbnailKind(Kinds(steps)[id]) ==> TakeThumbnail(id) in steps)
                     && |Jobs(steps)| < workers)
            && (Enabled(p, JoinFlight(id))
                <==> && id in Present(steps) && id < |Kinds(steps)| && Kinds(steps)[id].Preview?
                     && JoinFlight(id) !in steps)
            && (Enabled(p, Finish(id)) <==> id in Jobs(steps))
  {
    HoldersOfRun(workers, steps);
    RunTells(workers, steps, id);
    var p := Final(Fresh(workers), steps);
    if id in p.requests { assert RequestOk(p, p.requests[id]); }
  }

  /** A flight is taken exactly when some request holds the guard for its preview. */
  lemma GuardedByKey(p: Pool, id: RequestId)
    requires FlightsOk(p) && id in p.requests && p.requests[id].kind.Preview? && p.requests[id].flight.Some?
    ensures Guarded(p.requests, p.requests[id].flight)
            <==> exists other :: other in p.requests && HoldsGuard(p.requests[other])
                                 && p.requests[other].kind.key == p.requests[id].kind.key
  {
    assert RequestOk(p, p.requests[id]);
    forall other | other in p.requests && HoldsGuard(p.requests[other])
      ensures p.requests[other].flight == p.requests[id].flight
              <==> p.requests[other].kind.key == p.requests[id].kind.key
    {
      assert RequestOk(p, p.requests[other]);
    }
  }

  /** Some request has been given the flight of a preview and is not over. */
  ghost predicate FlightOut(steps: seq<Step>, key: CacheKey) {
    exists other: RequestId ::
      && other in Present(steps) && TakeFlight(other) in steps
      && other < |Kinds(steps)| && Kinds(steps)[other] in {Preview(key, false), Preview(key, true)}
  }

  lemma FlightOutOfRun(workers: nat, steps: seq<Step>, key: CacheKey)
    requires 1 <= workers <= 8 && IsRun(Fresh(workers), steps)
    ensures var requests := Final(Fresh(workers), steps).requests;
            FlightOut(steps, key)
            <==> exists other :: other in requests && HoldsGuard(requests[other]) && requests[other].kind.key == key
  {
    var requests := Final(Fresh(workers), steps).requests;
    if other: RequestId :| other in requests && HoldsGuard(requests[other]) && requests[other].kind.key == key {
      RunTells(workers, steps, other);
    }
    if FlightOut(steps, key) {
      var other: RequestId :| other in Present(steps) && TakeFlight(other) in steps
                              && other < |Kinds(steps)|
                              && Kinds(steps)[other] in {Preview(key, false), Preview(key, true)};
      RunTells(workers, steps, other);
    }
  }

  /** A joined request gets its flight exactly when no request has it for the same preview. */
  lemma FlightGrantedExactly(workers: nat, steps: seq<Step>, id: RequestId)
    requires 1 <= workers <= 8 && IsRun(Fresh(workers), steps)
    ensures Enabled(Final(Fresh(workers), steps), TakeFlight(id))
            <==> && id in Present(steps) && id < |Kinds(steps)| && Kinds(steps)[id].Preview?
                 && JoinFlight(id) in steps && TakeFlight(id) !in steps
                 && !FlightOut(steps, Kinds(steps)[id].key)
  {
    var p := Final(Fresh(workers), steps);
    HoldersOfRun(workers, steps);
    RunTells(workers, steps, id);
    if id in p.requests {
      assert RequestOk(p, p.requests[id]);
      if p.requests[id].phase == AwaitingFlight {
        GuardedByKey(p, id);
        FlightOutOfRun(workers, steps, p.requests[id].kind.key);
      }
    }
  }

  function KeysOf(requests: map<RequestId, Request>, ids: set<RequestId>): set<CacheKey> {
    set id | id in ids && id in requests && requests[id].kind.Preview? :: requests[id].kind.key
  }

  lemma {:induction false} FewerKeys(requests: map<RequestId, Request>, ids: set<RequestId>)
    ensures |KeysOf(requests, ids)| <= |ids|
    decreases ids
  {
    if ids == {} {
      assert KeysOf(requests, ids) == {};
    } else {
      var id :| id in ids;
      FewerKeys(requests, ids - {id});
      var before := KeysOf(requests, ids - {id});
      if id in requests && requests[id].kind.Preview? {
        assert KeysOf(requests, ids) == before + {requests[id].kind.key};
      } else {
        assert KeysOf(requests, ids) == before;
      }
    }
  }

  /** Joining sweeps the flights nobody refers to any more. */
  lemma JoinSweeps(p: Pool, id: RequestId)
    requires FlightsOk(p) && Enabled(p, JoinFlight(id))
    ensures Next(p, JoinFlight(id)).flights.Keys <= KeysOf(p.requests, p.requests.Keys)
  {
    forall key | key in Retained(p.flights, p.requests) ensures key in KeysOf(p.requests, p.requests.Keys) {
      var r :| r in p.requests && p.requests[r].flight == Some(p.flights[key]);
      assert RequestOk(p, p.requests[r]);
    }
  }

  lemma RequestsBounded(p: Pool)
    requires Inv(p)
    ensures |p.requests| <= 32 * p.workers
  {
    assert p.requests.Keys == Holders(p.requests, IsForeground) + Holders(p.requests, IsThumbnail);
    assert |p.requests.Keys| == |p.requests|;
  }

  /** So the flight table never outgrows the two admission limits together. */
  lemma {:induction false} FlightTableBounded(workers: nat, steps: seq<Step>)
    requires 1 <= workers <= 8 && IsRun(Fresh(workers), steps)
    ensures |Final(Fresh(workers), steps).flights| <= 32 * workers
  {
    if steps != [] {
      var init, last := steps[..|steps| - 1], steps[|steps| - 1];
      assert steps == init + [last];
      RunSnoc(Fresh(workers), init, last);
      FlightTableBounded(workers, init);
      HoldersOfRun(workers, init);
      var p := Final(Fresh(workers), init);
      if last.JoinFlight? {
        JoinSweeps(p, last.id);
        RequestsBounded(p);
        FewerKeys(p.requests, p.requests.Keys);
        SubsetCardinality(Next(p, last).flights.Keys, KeysOf(p.requests, p.requests.Keys));
      }
    }
  }

  // ---------------------------------------------------------------------------------------------
  // Progress
  // ---------------------------------------------------------------------------------------------

  /** A step that moves an admitted request forward without any caller giving up. */
  predicate Forward(step: Step) {
    !step.Admit? && !step.Cancel?
  }

  lemma NoneHolding(requests: map<RequestId, Request>, holds: Request -> bool)
    requires forall id :: id in requests ==> !holds(requests[id])
    ensures |Holders(requests, holds)| == 0
  {
    assert Holders(requests, holds) == {};
  }

  /** The order flight, thumbnail, worker has no cycle: some admitted request can always move on. */
  lemma NoStall(p: Pool) returns (step: Step)
    requires Inv(p) && p.requests != map[]
    ensures Forward(step) && Enabled(p, step)
  {
    var some: RequestId :| some in p.requests;
    if id: RequestId :| id in p.requests && p.requests[id].phase == Running {
      step := Finish(id);
    } else {
      NoneHolding(p.requests, HoldsWorker);
      if id: RequestId :| id in p.requests && ReadyForWorker(p.requests[id]) {
        step := TakeWorker(id);
      } else if id: RequestId :| id in p.requests && p.requests[id].phase == HoldingFlight {
        assert RequestOk(p, p.requests[id]);
        NoneHoldThumbnails(p);
        step := TakeThumbnail(id);
      } else if id: RequestId :| id in p.requests && p.requests[id].phase == Admitted {
        step := JoinFlight(id);
      } else {
        assert RequestOk(p, p.requests[some]);
        forall id | id in p.requests ensures !HoldsGuard(p.requests[id]) {
          assert RequestOk(p, p.requests[id]);
        }
        step := TakeFlight(some);
      }
    }
  }

  lemma NoneHoldThumbnails(p: Pool)
    requires Inv(p)
    requires forall id :: id in p.requests ==>
               p.requests[id].phase != Running && !ReadyForWorker(p.requests[id])
    ensures p.thumbnailsFree > 0
  {
    forall id | id in p.requests ensures !HoldsThumbnailPermit(p.requests[id]) {
      assert RequestOk(p, p.requests[id]);
    }
    NoneHolding(p.requests, HoldsThumbnailPermit);
  }

  function Remaining(r: Request): nat {
    match r.phase
    case Admitted => 5
    case AwaitingFlight => 4
    case HoldingFlight => 3
    case HoldingThumbnail => 2
    case Running => 1
  }

  lemma ForwardLightens(p: Pool, step: Step)
    requires FlightsOk(p) && Forward(step) && Enabled(p, step)
    ensures Total(Next(p, step).requests, Remaining) < Total(p.requests, Remaining)
  {
    var before, after := p.requests, Next(p, step).requests;
    assert RequestOk(p, before[step.id]);
    assert before - {step.id} == after - {step.id};
    TotalReplaced<RequestId, Request>(before, after, Remaining, step.id);
  }

  /** Without new admissions the pool drains: no run of forward steps is longer than five per request. */
  lemma {:induction false} PoolDrains(p: Pool, steps: seq<Step>)
    requires Inv(p) && IsRun(p, steps) && forall step :: step in steps ==> Forward(step)
    ensures |steps| <= Total(p.requests, Remaining)
    decreases |steps|
  {
    if steps != [] {
      var step, p' := steps[0], Next(p, steps[0]);
      assert step in steps;
      StepKeepsInv(p, step);
      ForwardLightens(p, step);
      PoolDrains(p', steps[1..]);
    }
  }

  // ---------------------------------------------------------------------------------------------
  // The service object
  // ---------------------------------------------------------------------------------------------

  class PreviewCache {
    const config: PreviewConfig
    var workersFree: nat
    var thumbnailsFree: nat
    var foregroundFree: nat
    var thumbnailRequestsFree: nat
    var flights: map<CacheKey, FlightId>
    var nextFlight: FlightId
    var requests: map<RequestId, Request>
    var nextRequest: RequestId

    ghost predicate Valid() reads this {
      config.Valid() && Inv(State())
    }

    ghost function State(): Pool reads this {
      Pool(config.workers, workersFree, thumbnailsFree, foregroundFree, thumbnailRequestsFree,
           flights, nextFlight, requests, nextRequest)
    }

    constructor (config: PreviewConfig)
      requires config.Valid()
      ensures Valid() && State() == Fresh(config.workers)
    {
      this.config := config;
      workersFree := config.workers;
      thumbnailsFree := if config.workers <= 1 then 1 else config.workers - 1;
      foregroundFree, thumbnailRequestsFree := config.workers * 16, config.workers * 16;
      flights, nextFlight, requests, nextRequest := map[], 0, map[], 0;
      new;
      FreshInv(config.workers);
    }

    /** None is the busy error. */
    method AdmitRequest(kind: Kind) returns (id: Option<RequestId>)
      requires Valid()
      modifies this
      ensures Valid()
      ensures id.Some? <==> Enabled(old(State()), Admit(kind))
      ensures State() == if id.Some? then Next(old(State()), Admit(kind)) else old(State())
      ensures id.Some? ==> id.value in requests && id.value !in old(requests)
    {
      var thumbnail := kind.Preview? && kind.thumbnail;
      if (if thumbnail then thumbnailRequestsFree else foregroundFree) == 0 {
        return None;
      }
      StepKeepsInv(State(), Admit(kind));
      if thumbnail {
        thumbnailRequestsFree := thumbnailRequestsFree - 1;
      } else {
        foregroundFree := foregroundFree - 1;
      }
      id := Some(nextRequest);
      requests := requests[nextRequest := Request(kind, Admitted, None)];
      nextRequest := nextRequest + 1;
    }

    method Join(id: RequestId)
      requires Valid() && Enabled(State(), JoinFlight(id))
      modifies this
      ensures Valid() && State() == Next(old(State()), JoinFlight(id))
    {
      ghost var next := Next(State(), JoinFlight(id));
      assert Inv(next) by { StepKeepsInv(State(), JoinFlight(id)); }
      var flight;
      flights, flight, nextFlight := UpgradeOrInsert(flights, requests, requests[id].kind.key, nextFlight);
      requests := requests[id := requests[id].(phase := AwaitingFlight, flight := Some(flight))];
      assert State() == next;
    }

    method LockFlight(id: RequestId)
      requires Valid() && Enabled(State(), TakeFlight(id))
      modifies `requests
      ensures Valid() && State() == Next(old(State()), TakeFlight(id))
    {
      StepKeepsInv(State(), TakeFlight(id));
      requests := requests[id := requests[id].(phase := HoldingFlight)];
    }

    method AcquireThumbnail(id: RequestId)
      requires Valid() && Enabled(State(), TakeThumbnail(id))
      modifies `requests, `thumbnailsFree
      ensures Valid() && State() == Next(old(State()), TakeThumbnail(id))
    {
      StepKeepsInv(State(), TakeThumbnail(id));
      thumbnailsFree := thumbnailsFree - 1;
      requests := requests[id := requests[id].(phase := HoldingThumbnail)];
    }

    method AcquireWorker(id: RequestId)
      requires Valid() && Enabled(State(), TakeWorker(id))
      modifies `requests, `workersFree
      ensures Valid() && State() == Next(old(State()), TakeWorker(id))
    {
      StepKeepsInv(State(), TakeWorker(id));
      workersFree := workersFree - 1;
      requests := requests[id := requests[id].(phase := Running)];
    }

    method FinishJob(id: RequestId)
      requires Valid() && Enabled(State(), Finish(id))
      modifies this
      ensures Valid() && State() == Next(old(State()), Finish(id))
    {
      StepKeepsInv(State(), Finish(id));
      DropPermits(id);
    }

    method CancelRequest(id: RequestId)
      requires Valid() && Enabled(State(), Cancel(id))
      modifies this
      ensures Valid() && State() == Next(old(State()), Cancel(id))
    {
      StepKeepsInv(State(), Cancel(id));
      if requests[id].phase != Running {
        DropPermits(id);
      }
    }

    method DropPermits(id: RequestId)
      requires id in requests
      modifies this
      ensures State() == Release(old(State()), id)
    {
      var r := requests[id];
      if r.phase == Running {
        workersFree := workersFree + 1;
      }
      if HoldsThumbnailPermit(r) {
        thumbnailsFree := thumbnailsFree + 1;
      }
      if IsThumbnail(r) {
        thumbnailRequestsFree := thumbnailRequestsFree + 1;
      } else {
        foregroundFree := foregroundFree + 1;
      }
      requests := requests - {id};
    }
  }

  method DropDead(flights: map<CacheKey, FlightId>, requests: map<RequestId, Request>)
    returns (retained: map<CacheKey, FlightId>)
    ensures retained == Retained(flights, requests)
  {
    retained := map[];
    var todo := flights.Keys;
    while todo != {}
      invariant todo <= flights.Keys
      invariant retained == map key | key in flights && key !in todo && Alive(requests, flights[key]) :: flights[key]
      decreases todo
    {
      var key :| key in todo;
      todo := todo - {key};
      if Alive(requests, flights[key]) {
        retained := retained[key := flights[key]];
      }
    }
  }

  method UpgradeOrInsert(flights: map<CacheKey, FlightId>, requests: map<RequestId, Request>,
                         key: CacheKey, nextFlight: FlightId)
    returns (result: map<CacheKey, FlightId>, flight: FlightId, next: FlightId)
    ensures flight == if key in Retained(flights, requests) then Retained(flights, requests)[key] else nextFlight
    ensures result == Retained(flights, requests)[key := flight]
    ensures next == if key in Retained(flights, requests) then nextFlight else nextFlight + 1
  {
    result := DropDead(flights, requests);
    if key in result {
      flight, next := result[key], nextFlight;
    } else {
      flight, next := nextFlight, nextFlight + 1;
      result := result[key := flight];
    }
  }

  method NewCache(config: PreviewConfig) returns (cache: PreviewCache?)
    ensures cache != null
            <==> && 0 < config.maxSourceBytes <= 536_870_912 && 0 < config.maxPixels <= 100_000_000
                 && 0 < config.maxDecodedBytes <= 1_073_741_824 && config.workers in {1, 2, 3, 4, 5, 6, 7, 8}
                 && 0 < config.cacheBytes <= 1_099_511_627_776 && 1 <= config.cacheEntries <= 16_384
    ensures cache != null ==> fresh(cache) && cache.Valid() && cache.State() == Fresh(config.workers)
  {
    if !config.Valid() {
      return null;
    }
    cache := new PreviewCache(config);
  }
}
