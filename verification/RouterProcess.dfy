// The gateway's router supervisor: it probes, adopts, spawns, retries and
// stops the one router daemon of its home, and sends it requests.
module RouterProcess {
  import opened Wrappers
  import opened Json
  import opened RouterLockRecord
  import opened RouterWorld

  const COUNTER: nat := 0x1_0000_0000_0000_0000
  const FAILED_TO_START := "failed to start router daemon: "
  const NOT_HEALTHY := "router daemon did not become healthy within 20 seconds"
  const NOT_KILLED := "router daemon did not become healthy within 20 seconds and could not be killed"

  datatype RunStatus = IsRunning | IsStopped | IsUnhealthy

  datatype StatusReport = StatusReport(
    status: RunStatus, pid: Option<nat>, start: Option<nat>, restartCount: nat, error: Option<string>)

  datatype ShutdownReport = ShutdownReport(graceful: bool, forced: bool, pid: Option<nat>, start: Option<nat>)

  datatype Operation =
    | EnsureStartedOp
    | RestartOp
    | StatusOp
    | ShutdownOp
    | CallOp
    | CallExistingOp

  // ---------------------------------------------------------------- facts about traces

  // What one looks for in a trace.
  datatype Mark =
    | Refusal
    | Timeout
    | Request
    | Removal
    | LockHandled
    | Denial(ground: Ground)
    | Healthy(endpoint: Endpoint)
    | End(handle: nat)
    | Lost(handle: nat)
    | Absence
    | NoRouter
    | NoReach

  predicate Has(e: Event, mark: Mark) {
    match mark
    case Refusal => e.Refused? || e.SpawnFailed? || (e.OwnerReported? && e.owner.Some?)
    case Timeout => e.TimedOut?
    case Request => e.Requested?
    case Removal => e.RemovalTried?
    case LockHandled => (e.KilledPid? && e.why == Starting) || e.NoneNamed?
    case Denial(ground) => e.Denied? && e.ground == ground
    case Healthy(endpoint) => e.HealthOk? && e.endpoint == endpoint
    case End(handle) => e == SawExit(handle) || (e.KilledChild? && e.handle == handle && e.delivered)
    case Lost(handle) => e == SawExit(handle) || e == WaitFailure(handle)
    case Absence => e.Lacking? && (e.lack.NoFile? || e.lack.Unusable?)
    case NoRouter => (e.Lacking? && !e.lack.NotReachable?) || (e.Denied? && e.ground == Fingerprint)
    case NoReach => (e.Lacking? && !e.lack.NotHealthy?) || (e.Denied? && e.ground == LockIdentity)
  }

  // The trace has such an event from position n on.
  ghost predicate Since(n: nat, trace: seq<Event>, mark: Mark) {
    exists k :: n <= k < |trace| && Has(trace[k], mark)
  }

  lemma SinceLater(n: nat, m: nat, earlier: seq<Event>, later: seq<Event>, mark: Mark)
    requires n <= m && earlier <= later
    ensures Since(m, earlier, mark) ==> Since(n, later, mark)
  {
    if Since(m, earlier, mark) {
      var k :| m <= k < |earlier| && Has(earlier[k], mark);
      assert later[k] == earlier[k];
    }
  }

  lemma SinceNow(n: nat, trace: seq<Event>, mark: Mark)
    requires n < |trace| && Has(trace[|trace| - 1], mark)
    ensures Since(n, trace, mark)
  {
  }

  // Without an endpoint there is no router, healthy or reachable.
  lemma AbsentMeans(n: nat, trace: seq<Event>)
    ensures Since(n, trace, Absence) ==> Since(n, trace, NoRouter) && Since(n, trace, NoReach)
  {
    if Since(n, trace, Absence) {
      var k :| n <= k < |trace| && Has(trace[k], Absence);
      assert Has(trace[k], NoRouter) && Has(trace[k], NoReach);
    }
  }

  // A denied test leaves no router of ours.
  lemma DenialMeans(n: nat, trace: seq<Event>)
    ensures Since(n, trace, Denial(Fingerprint)) ==> Since(n, trace, NoRouter)
    ensures Since(n, trace, Denial(LockIdentity)) ==> Since(n, trace, NoReach)
  {
    if Since(n, trace, Denial(Fingerprint)) {
      var k :| n <= k < |trace| && Has(trace[k], Denial(Fingerprint));
      assert Has(trace[k], NoRouter);
    }
    if Since(n, trace, Denial(LockIdentity)) {
      var k :| n <= k < |trace| && Has(trace[k], Denial(LockIdentity));
      assert Has(trace[k], NoReach);
    }
  }

  // A router of ours was asked to stop, or none was reachable, or its file
  // could not be used.
  ghost predicate AskedToStop(n: nat, trace: seq<Event>) {
    Since(n, trace, Request) || Since(n, trace, NoReach) || Since(n, trace, Refusal)
  }

  lemma AskedLater(n: nat, earlier: seq<Event>, later: seq<Event>)
    requires earlier <= later && AskedToStop(n, earlier)
    ensures AskedToStop(n, later)
  {
    SinceLater(n, n, earlier, later, Request);
    SinceLater(n, n, earlier, later, NoReach);
    SinceLater(n, n, earlier, later, Refusal);
  }

  lemma HealthyJustNow(trace: seq<Event>, ep: Endpoint)
    requires trace != [] && HealthyAt(trace, |trace| - 1, ep)
    ensures HealthyNow(trace, ep)
  {
    assert NoReadAfter(trace, |trace| - 1);
  }

  lemma ReachedJustNow(cfg: Config, trace: seq<Event>, ep: Endpoint)
    requires trace != [] && Last(trace) == Some(Connected(ep.addr, true)) && JustGiven(cfg, trace[..|trace| - 1], ep)
    ensures LookedAt(cfg, trace, ep)
  {
    assert FoundAt(cfg, trace, |trace| - 1, ep) && NoReadAfter(trace, |trace| - 1);
  }

  lemma ConnectedMeans(cfg: Config, before: seq<Event>, ep: Endpoint, accepts: bool)
    requires JustGiven(cfg, before, ep)
    ensures var later := before + [Connected(ep.addr, accepts)];
      if accepts then LookedAt(cfg, later, ep) else JustUnreachable(cfg, later, ep)
  {
    var later := before + [Connected(ep.addr, accepts)];
    assert later[..|later| - 1] == before;
    if accepts { ReachedJustNow(cfg, later, ep); }
  }

  lemma HealthyIsLookedAt(cfg: Config, trace: seq<Event>, ep: Endpoint)
    requires HealthyNow(trace, ep)
    ensures LookedAt(cfg, trace, ep)
  {
    var i: nat :| i < |trace| && HealthyAt(trace, i, ep) && NoReadAfter(trace, i);
    assert FoundAt(cfg, trace, i, ep);
  }

  // The latest look stays the latest while the file is not read again.
  lemma LookedLater(cfg: Config, earlier: seq<Event>, later: seq<Event>, ep: Endpoint)
    requires Aside(earlier, later)
    ensures LookedAt(cfg, earlier, ep) ==> LookedAt(cfg, later, ep)
    ensures HealthyNow(earlier, ep) ==> HealthyNow(later, ep)
  {
    if LookedAt(cfg, earlier, ep) {
      var i: nat :| i < |earlier| && FoundAt(cfg, earlier, i, ep) && NoReadAfter(earlier, i);
      assert later[i] == earlier[i] && later[..i] == earlier[..i];
      assert FoundAt(cfg, later, i, ep) && NoReadAfter(later, i);
    }
    if HealthyNow(earlier, ep) {
      var i: nat :| i < |earlier| && HealthyAt(earlier, i, ep) && NoReadAfter(earlier, i);
      assert HealthyAt(later, i, ep) && NoReadAfter(later, i);
    }
  }

  // The child is still the one held before, or none because that one was seen
  // to have exited or could not be waited for.
  ghost predicate ChildKept(n: nat, trace: seq<Event>, before: Option<nat>, after: Option<nat>) {
    after == before || (before.Some? && after == None && Since(n, trace, Lost(before.value)))
  }

  lemma ChildKeptLater(n: nat, m: nat, earlier: seq<Event>, later: seq<Event>,
                       first: Option<nat>, second: Option<nat>, third: Option<nat>)
    requires n <= m && earlier <= later && ChildKept(n, earlier, first, second) && ChildKept(m, later, second, third)
    ensures ChildKept(n, later, first, third)
  {
    if first.Some? {
      SinceLater(n, n, earlier, later, Lost(first.value));
      SinceLater(n, m, later, later, Lost(first.value));
    }
  }

  lemma LostMeans(earlier: seq<Event>, later: seq<Event>, handle: nat)
    requires earlier <= later && Since(0, earlier, Lost(handle))
    ensures SawExit(handle) in later || WaitFailure(handle) in later
  {
    var k :| 0 <= k < |earlier| && Has(earlier[k], Lost(handle));
    assert later[k] == earlier[k];
  }

  // The last event is the answer to a numbered request.
  predicate AnsweredLast(trace: seq<Event>) {
    trace != [] && trace[|trace| - 1].Answered? && trace[|trace| - 1].message.Numbered?
  }

  predicate AnswerIs(trace: seq<Event>, answer: Result<JsonText, string>) {
    AnsweredLast(trace) && trace[|trace| - 1].answer == answer
  }

  // A result is what the last answer says: its payload when it is positive, and
  // otherwise an error.
  predicate ResultSays(trace: seq<Event>, r: Result<JsonText, string>) {
    && AnsweredLast(trace)
    && var answer := trace[|trace| - 1].answer;
    && (r.Ok? <==> Positive(answer))
    && (r.Ok? ==> r.value == match Get(answer.value, "payload") case Some(payload) => payload case None => Null)
    && (answer.Err? ==> r == answer)
    && (answer.Ok? && r.Err? ==> r.error == ErrorIn(answer.value))
  }

  // The error an answer states.
  function ErrorIn(answer: JsonText): string {
    match Get(answer, "error")
    case Some(Str(text)) => text
    case _ => "router call failed"
  }

  // From position n on a request was answered, positively or not.
  ghost predicate AnsweredSince(n: nat, trace: seq<Event>, positive: bool) {
    exists k :: n <= k < |trace| && trace[k].Answered? && trace[k].message.Numbered? && Positive(trace[k].answer) == positive
  }

  lemma AnsweredLater(n: nat, earlier: seq<Event>, later: seq<Event>, positive: bool)
    requires earlier <= later && n < |earlier| && AnsweredLast(earlier) && Positive(earlier[|earlier| - 1].answer) == positive
    ensures AnsweredSince(n, later, positive)
  {
    assert later[|earlier| - 1] == earlier[|earlier| - 1];
  }

  // A connection was refused, then the address file was to be removed.
  predicate SilentAndRemoved(trace: seq<Event>) {
    && |trace| >= 2 && trace[|trace| - 1].RemovalTried?
    && trace[|trace| - 2].Connected? && !trace[|trace| - 2].accepts
  }

  lemma WithdrawnMeans(n: nat, tried: seq<Event>, later: seq<Event>, handle: nat, owner: Option<string>)
    requires n <= |tried| && tried <= later && |later| == |tried| + 2
    requires later[|tried|].RemovalTried? && later[|tried| + 1] == OwnerReported(owner)
    ensures Since(n, later, Removal) && Last(later) == Some(OwnerReported(owner))
    ensures Since(n, tried, End(handle)) ==> Since(n, later, End(handle))
    ensures Since(n, tried, Refusal) || owner.Some? ==> Since(n, later, Refusal)
  {
    assert Has(later[|tried|], Removal);
    SinceLater(n, n, tried, later, End(handle));
    SinceLater(n, n, tried, later, Refusal);
    if owner.Some? { SinceNow(n, later, Refusal); }
  }

  // The child held before is gone, or could not be killed.
  ghost predicate ChildHandled(n: nat, trace: seq<Event>, held: Option<nat>) {
    held.Some? ==> Since(n, trace, End(held.value)) || Since(n, trace, Refusal)
  }

  lemma ClearedLater(n: nat, earlier: seq<Event>, later: seq<Event>, held: Option<nat>)
    requires n <= |earlier| && earlier <= later && ChildHandled(n, earlier, held) && Since(n, earlier, LockHandled)
    ensures ChildHandled(n, later, held) && Since(n, later, LockHandled)
    ensures |later| == |earlier| + 1 && Has(later[|earlier|], Refusal) ==> Since(n, later, Refusal)
    ensures |later| == |earlier| + 1 ==> later[..|later| - 1] == earlier
  {
    SinceLater(n, n, earlier, later, LockHandled);
    SinceLater(n, n, earlier, later, Refusal);
    if held.Some? { SinceLater(n, n, earlier, later, End(held.value)); }
  }

  // The last event, from position n on, vets the endpoint, by its fingerprint
  // or by one of the two proofs of ownership.
  predicate JustVetted(n: nat, trace: seq<Event>, ep: Endpoint, byFingerprint: bool) {
    n < |trace| && LastVets(trace, ep) && trace[|trace| - 1].ground.Fingerprint? == byFingerprint
  }

  // An adoption, from position n on, of an endpoint that answered its health
  // check and was then vetted, both from position n on too.
  ghost predicate AdoptionAt(n: nat, trace: seq<Event>, k: nat, ep: Endpoint) {
    && n < k < |trace| && trace[k] == Adopted(ep)
    && LastVets(trace[..k], ep) && Since(n, trace[..k - 1], Healthy(ep))
  }

  ghost predicate FreshAdoption(n: nat, trace: seq<Event>, ep: Endpoint) {
    exists k: nat :: AdoptionAt(n, trace, k, ep)
  }

  ghost predicate FreshAddress(n: nat, trace: seq<Event>, addr: string) {
    exists ep: Endpoint :: ep.addr == addr && FreshAdoption(n, trace, ep)
  }

  lemma FreshNow(n: nat, before: seq<Event>, ep: Endpoint)
    requires LastVets(before, ep) && Since(n, before, Healthy(ep))
    ensures FreshAdoption(n, before + [Adopted(ep)], ep) && FreshAddress(n, before + [Adopted(ep)], ep.addr)
  {
    var trace, k := before + [Adopted(ep)], |before|;
    assert trace[..k] == before;
    var h :| n <= h < |before| && Has(before[h], Healthy(ep));
    assert trace[..k - 1][h] == before[h];
    assert AdoptionAt(n, trace, k, ep);
  }

  lemma FreshLater(n: nat, m: nat, earlier: seq<Event>, later: seq<Event>, addr: string)
    requires n <= m && earlier <= later && FreshAddress(m, earlier, addr)
    ensures FreshAddress(n, later, addr)
  {
    var ep: Endpoint :| ep.addr == addr && FreshAdoption(m, earlier, ep);
    var k: nat :| AdoptionAt(m, earlier, k, ep);
    assert later[..k] == earlier[..k] && later[..k - 1] == earlier[..k - 1] && later[k] == earlier[k];
    SinceLater(n, m, earlier[..k - 1], later[..k - 1], Healthy(ep));
    assert AdoptionAt(n, later, k, ep);
  }

  // From position n on, every spawn but the first comes after the child
  // spawned before it has been killed or seen to exit.
  ghost predicate SpawnsGuarded(n: nat, trace: seq<Event>) {
    forall i, j :: n <= i < j < |trace| && trace[i].Spawned? && trace[j].Spawned? ==>
      exists k :: i < k < j && Has(trace[k], End(trace[i].handle))
  }

  ghost predicate AtMostOneSpawn(n: nat, trace: seq<Event>) {
    forall i, j :: n <= i < j < |trace| ==> !(trace[i].Spawned? && trace[j].Spawned?)
  }

  // Every child spawned from position n on is known to be gone.
  ghost predicate SpawnsAreGone(n: nat, trace: seq<Event>) {
    forall i :: n <= i < |trace| && trace[i].Spawned? ==> Since(i + 1, trace, End(trace[i].handle))
  }

  // From position n on, nothing is spawned or signalled before a look at the
  // address file found no healthy router of ours.
  ghost predicate ActsAfterLook(n: nat, trace: seq<Event>) {
    forall i :: n <= i < |trace| && IsAct(trace[i]) ==> Since(n, trace[..i], NoRouter)
  }

  lemma ActsLater(n: nat, earlier: seq<Event>, later: seq<Event>)
    requires n <= |earlier| && earlier <= later && ActsAfterLook(n, earlier) && Since(n, earlier, NoRouter)
    ensures ActsAfterLook(n, later)
  {
    forall i | n <= i < |later| && IsAct(later[i]) ensures Since(n, later[..i], NoRouter) {
      if i < |earlier| {
        assert earlier[i] == later[i] && later[..i] == earlier[..i];
      } else {
        SinceLater(n, n, earlier, later[..i], NoRouter);
      }
    }
  }

  // From position n on, a router was adopted and a later look found none.
  ghost predicate LostAgain(n: nat, trace: seq<Event>) {
    exists j, k :: n <= j < k < |trace| && trace[j].Adopted? && Has(trace[k], NoRouter)
  }

  lemma LostNow(n: nat, m: nat, earlier: seq<Event>, later: seq<Event>, addr: string)
    requires n <= m && earlier <= later && FreshAddress(m, earlier, addr)
    ensures Since(|earlier|, later, NoRouter) ==> LostAgain(n, later)
  {
    if Since(|earlier|, later, NoRouter) {
      var ep: Endpoint :| ep.addr == addr && FreshAdoption(m, earlier, ep);
      var j: nat :| AdoptionAt(m, earlier, j, ep);
      var k :| |earlier| <= k < |later| && Has(later[k], NoRouter);
      assert later[j] == earlier[j];
    }
  }

  // Where nothing is spawned or signalled, both rules hold.
  lemma PassiveKeepsRules(earlier: seq<Event>, later: seq<Event>)
    requires Passive(earlier, later)
    ensures SpawnsGuarded(|earlier|, later) && ActsAfterLook(|earlier|, later)
  {
  }

  lemma PassiveKeepsLook(n: nat, trace: seq<Event>)
    requires n <= |trace| && Passive(trace[..n], trace)
    ensures ActsAfterLook(n, trace)
  {
  }

  lemma AdoptedLater(earlier: seq<Event>, later: seq<Event>, addr: string)
    requires earlier <= later && AdoptedBefore(earlier, addr)
    ensures AdoptedBefore(later, addr)
  {
    var i :| 0 <= i < |earlier| && earlier[i].Adopted? && earlier[i].endpoint.addr == addr;
    assert later[i] == earlier[i];
  }

  datatype Outcome = Started | Retry | Failed(error: string)

  // The trace of one attempt that spawned a child: quiet before and after, so
  // it is the one spawn, and once that child is gone, all are.
  lemma OneSpawn(earlier: seq<Event>, started: seq<Event>, later: seq<Event>)
    requires |earlier| < |started| && started[|started| - 1].Spawned?
    requires Quiet(earlier, started[..|started| - 1]) && Quiet(started, later)
    ensures AtMostOneSpawn(|earlier|, later)
    ensures Since(|started|, later, End(started[|started| - 1].handle)) ==> SpawnsAreGone(|earlier|, later)
  {
    var s := |started| - 1;
    forall i | |earlier| <= i < |later| && i != s ensures !later[i].Spawned? {
      if i < s { assert later[i] == started[..s][i]; }
    }
    assert later[s] == started[s];
  }

  // An attempt after which earlier spawns are gone keeps the spawns guarded.
  lemma GuardedAttempt(n: nat, earlier: seq<Event>, later: seq<Event>)
    requires n <= |earlier| && earlier <= later
    requires SpawnsGuarded(n, earlier) && SpawnsAreGone(n, earlier) && AtMostOneSpawn(|earlier|, later)
    ensures SpawnsGuarded(n, later)
  {
    forall i, j | n <= i < j < |later| && later[i].Spawned? && later[j].Spawned?
      ensures exists k :: i < k < j && Has(later[k], End(later[i].handle))
    {
      assert i < |earlier| && earlier[i] == later[i];
      var k;
      if j < |earlier| {
        assert earlier[j] == later[j];
        k :| i < k < j && Has(earlier[k], End(earlier[i].handle));
      } else {
        k :| i < k < |earlier| && Has(earlier[k], End(earlier[i].handle));
      }
      assert later[k] == earlier[k];
    }
  }

  lemma QuietKeepsGuards(n: nat, earlier: seq<Event>, later: seq<Event>)
    requires n <= |earlier| && SpawnsGuarded(n, earlier) && Quiet(earlier, later)
    ensures SpawnsGuarded(n, later)
  {
    forall i, j | n <= i < j < |later| && later[i].Spawned? && later[j].Spawned?
      ensures exists k :: i < k < j && Has(later[k], End(later[i].handle))
    {
      assert earlier[i] == later[i] && earlier[j] == later[j];
      var k :| i < k < j && Has(earlier[k], End(earlier[i].handle));
      assert later[k] == earlier[k];
    }
  }

  lemma GoneAttempt(n: nat, earlier: seq<Event>, later: seq<Event>)
    requires n <= |earlier| && earlier <= later
    requires SpawnsAreGone(n, earlier) && SpawnsAreGone(|earlier|, later)
    ensures SpawnsAreGone(n, later)
  {
    forall i | n <= i < |later| && later[i].Spawned? ensures Since(i + 1, later, End(later[i].handle)) {
      if i < |earlier| {
        assert earlier[i] == later[i];
        SinceLater(i + 1, i + 1, earlier, later, End(earlier[i].handle));
      }
    }
  }

  ghost predicate OneKill(earlier: seq<Event>, later: seq<Event>, why: Why) {
    |later| == |earlier| + 1 && earlier <= later && later[|earlier|].KilledPid? && later[|earlier|].why == why
  }

  class RouterProcess {
    const world: World
    var addr: Option<string>
    var child: Option<nat>
    var requestSeq: nat
    var restartCount: nat
    var lastError: Option<string>

    // What every run keeps: nothing unjustified has happened, the address was
    // adopted, and the counter is the number of children ever spawned.
    ghost predicate Valid()
      reads this, world
    {
      && world.Valid()
      && (addr.Some? ==> AdoptedBefore(world.trace, addr.value))
      && (child.Some? ==> child.value < |world.children|)
      && restartCount == |world.children| % COUNTER
    }

    constructor (world: World)
      requires world.Valid() && world.children == []
      ensures Valid() && this.world == world && addr == None && child == None && lastError == None
    {
      this.world := world;
      addr := None;
      child := None;
      requestSeq := 1;
      restartCount := 0;
      lastError := None;
    }

    // The address stays adopted when events are added.
    lemma KeepAddr(earlier: seq<Event>)
      requires earlier <= world.trace
      requires addr.Some? ==> AdoptedBefore(earlier, addr.value)
      ensures addr.Some? ==> AdoptedBefore(world.trace, addr.value)
    {
      if addr.Some? { AdoptedLater(earlier, world.trace, addr.value); }
    }

    // Adds a conclusion that says why this gateway acts as it does.
    ghost method Record(e: Event)
      requires Valid() && Justified(world.cfg, world.trace, e) && IsNote(e, world.Seen())
      modifies world`trace
      ensures Valid() && world.trace == old(world.trace) + [e]
    {
      world.Note(e);
      KeepAddr(old(world.trace));
    }

    // ------------------------------------------------------------ files and identities

    // The endpoint the address file gives. A file that cannot be used is to be
    // removed.
    method ReadEndpointRecord() returns (r: Result<Option<Endpoint>, string>)
      requires Valid()
      modifies world
      ensures Valid() && |world.children| == old(|world.children|) && Passive(old(world.trace), world.trace)
      ensures |world.trace| > |old(world.trace)| && world.trace[|old(world.trace)|].FileRead?
      ensures r == EndpointIn(world.cfg.version, world.trace[|old(world.trace)|].file)
      ensures r.Err? ==> Since(|old(world.trace)|, world.trace, Refusal)
      ensures r == Ok(None) ==> Since(|old(world.trace)|, world.trace, Absence)
      ensures r.Ok? && r.value.Some? ==>
        |world.trace| == |old(world.trace)| + 1 && JustGiven(world.cfg, world.trace, r.value.value)
    {
      var file := world.ReadEndpointFile();
      KeepAddr(old(world.trace));
      match file {
        case Missing => r := Ok(None);
        case Unreadable(error) => r := Err(error);
        case Garbled(error) => r := Err(error);
        case Decoded(v) => r := Ok(ParseEndpoint(world.cfg.version, v));
      }
      ghost var read := world.trace;
      Conclude(file);
      ghost var concluded := world.trace;
      SinceLater(|old(world.trace)|, |read|, concluded, concluded, Refusal);
      SinceLater(|old(world.trace)|, |read|, concluded, concluded, Absence);
      if file.Garbled? || (file.Decoded? && r == Ok(None)) {
        RemoveEndpointFile();
        SinceLater(|old(world.trace)|, |old(world.trace)|, concluded, world.trace, Refusal);
        SinceLater(|old(world.trace)|, |old(world.trace)|, concluded, world.trace, Absence);
      }
    }

    // Notes what an address file without a usable endpoint means.
    ghost method Conclude(file: EndpointFile)
      requires Valid() && Last(world.trace) == Some(FileRead(file))
      modifies world`trace
      ensures Valid() && Aside(old(world.trace), world.trace)
      ensures EndpointIn(world.cfg.version, file).Err? ==> Since(|old(world.trace)|, world.trace, Refusal)
      ensures EndpointIn(world.cfg.version, file) == Ok(None) ==> Since(|old(world.trace)|, world.trace, Absence)
      ensures EndpointIn(world.cfg.version, file).Ok? && EndpointIn(world.cfg.version, file) != Ok(None) ==>
        world.trace == old(world.trace)
    {
      var given := EndpointIn(world.cfg.version, file);
      if given.Err? {
        Record(Refused(EndpointUnreadable(given.error)));
        SinceNow(|old(world.trace)|, world.trace, Refusal);
      } else if given.value.None? {
        Record(Lacking(if file.Missing? then NoFile else Unusable));
        SinceNow(|old(world.trace)|, world.trace, Absence);
      }
    }

    method RemoveEndpointFile()
      requires Valid()
      modifies world
      ensures Valid() && |world.children| == old(|world.children|)
      ensures |world.trace| == |old(world.trace)| + 1 && old(world.trace) <= world.trace
      ensures world.trace[|old(world.trace)|].RemovalTried?
    {
      world.RemoveEndpointFile();
      KeepAddr(old(world.trace));
    }

    // The endpoint's pid is alive with the start time it claims, and our
    // router's lock file names the same pid and start time.
    method IdentityMatches(ep: Endpoint) returns (matches: bool)
      requires Valid()
      ensures matches <==> HasLockIdentity(world.cfg, ep, world.Seen())
    {
      if ep.pid.None? || ep.start.None? || world.lockText.None? {
        return false;
      }
      var record := ReadLockRecord(world.lockText.value);
      matches :=
        && record.kind == Some("router") && record.buildKind == Some(world.cfg.buildKind)
        && record.home == Some(world.cfg.home)
        && record.pid == ep.pid && record.start == ep.start
        && ep.pid.value in world.table && world.table[ep.pid.value] == ep.start.value;
    }

    // Signals the endpoint's process if and only if it is another than the
    // gateway and is the one the router's lock file names.
    method TerminateEndpointProcess(ep: Endpoint, ghost why: Why) returns (killed: bool)
      requires Valid() && (ep.pid.Some? ==> MaySignal(world.trace, ep.pid.value, why))
      modifies world
      ensures Valid() && |world.children| == old(|world.children|) && Quiet(old(world.trace), world.trace)
      ensures world.trace == old(world.trace) ==>
        !killed && (ep.pid.None? || ep.pid == Some(world.cfg.selfPid) || !HasLockIdentity(world.cfg, ep, world.Seen()))
      ensures world.trace != old(world.trace) ==> OneKill(old(world.trace), world.trace, why)
    {
      if ep.pid.None? || ep.pid.value == world.cfg.selfPid {
        return false;
      }
      world.Interfere();
      var matches := IdentityMatches(ep);
      if !matches {
        return false;
      }
      killed := world.KillPid(ep.pid.value, why);
      KeepAddr(old(world.trace));
      if killed {
        world.Interfere();
      }
    }

    // The process the router's lock file names, when it may be signalled.
    method RouterOfLock() returns (pid: Option<nat>)
      requires Valid()
      ensures pid.Some? ==> Justified(world.cfg, world.trace, KilledPid(pid.value, Starting, world.Seen()))
      ensures pid.None? ==> NoneToKill(world.cfg, world.Seen())
    {
      if world.lockText.None? {
        return None;
      }
      var record := ReadLockRecord(world.lockText.value);
      if record.kind != Some("router") || record.buildKind != Some(world.cfg.buildKind)
         || record.home != Some(world.cfg.home)
         || record.pid.None? || record.pid.value == world.cfg.selfPid || record.start.None?
      {
        return None;
      }
      var candidate := record.pid.value;
      if candidate !in world.table || world.table[candidate] != record.start.value {
        return None;
      }
      assert IsLive(world.Seen(), candidate, record.start.value)
             && LockNames(world.cfg, world.Seen(), candidate, record.start.value);
      pid := Some(candidate);
    }

    // Signals the process the router's lock file names, unless there is none
    // to be killed.
    method TerminateRouterFromLock() returns (killed: bool)
      requires Valid()
      modifies world
      ensures Valid() && |world.children| == old(|world.children|)
      ensures |world.trace| == |old(world.trace)| + 1 && old(world.trace) <= world.trace
      ensures Has(world.trace[|old(world.trace)|], LockHandled)
      ensures killed ==> world.trace[|old(world.trace)|].KilledPid?
    {
      world.Interfere();
      var pid := RouterOfLock();
      if pid.None? {
        Record(NoneNamed(world.Seen()));
        return false;
      }
      killed := world.KillPid(pid.value, Starting);
      KeepAddr(old(world.trace));
      if killed {
        world.Interfere();
      }
    }

    // ------------------------------------------------------------ probes

    method Exchange(target: string, message: Message) returns (r: Result<JsonText, string>)
      requires Valid() && MaySend(world.cfg, world.trace, target, message)
      modifies world
      ensures Valid() && |world.children| == old(|world.children|)
      ensures world.trace == old(world.trace) + [Answered(target, message, r)]
    {
      r := world.Exchange(target, message);
      KeepAddr(old(world.trace));
    }

    method Connects(target: string) returns (accepts: bool)
      requires Valid()
      modifies world
      ensures Valid() && |world.children| == old(|world.children|)
      ensures world.trace == old(world.trace) + [Connected(target, accepts)]
    {
      accepts := world.Connects(target);
      KeepAddr(old(world.trace));
    }

    // The health probe of an endpoint just read.
    method AskHealth(ep: Endpoint) returns (answer: Result<JsonText, string>)
      requires Valid() && JustGiven(world.cfg, world.trace, ep)
      modifies world
      ensures Valid() && |world.children| == old(|world.children|)
      ensures world.trace == old(world.trace) + [Answered(ep.addr, HealthProbe, answer)]
      ensures JustProbed(world.cfg, world.trace, ep, answer)
    {
      answer := Exchange(ep.addr, HealthProbe);
      assert world.trace[..|world.trace| - 1] == old(world.trace);
    }

    // The address file's endpoint, when it answers its health check; otherwise
    // it is first noted that there is none. Only a process whose address gave
    // no answer at all may be signalled.
    method HealthyRouterEndpoint() returns (r: Result<Option<Endpoint>, string>)
      requires Valid()
      modifies world
      ensures Valid() && |world.children| == old(|world.children|) && Probing(old(world.trace), world.trace)
      ensures r.Err? ==> Since(|old(world.trace)|, world.trace, Refusal)
      ensures r == Ok(None) ==>
        Since(|old(world.trace)|, world.trace, NoRouter) && ActsAfterLook(|old(world.trace)|, world.trace)
      ensures r != Ok(None) ==> Passive(old(world.trace), world.trace)
      ensures r.Ok? && r.value.Some? ==>
        && Since(|old(world.trace)|, world.trace, Healthy(r.value.value)) && HealthyNow(world.trace, r.value.value)
    {
      r := ReadEndpointRecord();
      AbsentMeans(|old(world.trace)|, world.trace);
      if r.Ok? && r.value.Some? {
        r := AskGiven(r.value.value, |old(world.trace)|);
      }
    }

    // Probes the endpoint just read.
    method AskGiven(base: Endpoint, ghost since: nat) returns (r: Result<Option<Endpoint>, string>)
      requires Valid() && JustGiven(world.cfg, world.trace, base)
      requires since <= |world.trace| && Passive(world.trace[..since], world.trace)
      modifies world
      ensures Valid() && |world.children| == old(|world.children|) && Probing(old(world.trace), world.trace)
      ensures r.Ok?
      ensures r == Ok(None) ==> Since(since, world.trace, NoRouter) && ActsAfterLook(since, world.trace)
      ensures r.value.Some? ==>
        && Passive(old(world.trace), world.trace)
        && Since(since, world.trace, Healthy(r.value.value)) && HealthyNow(world.trace, r.value.value)
    {
      var answer := AskHealth(base);
      if answer.Ok? && AsBool(Get(answer.value, "ok")) == Some(true) {
        var ep := TakeHealthy(base, answer.value, since);
        r := Ok(Some(ep));
      } else {
        DropUnhealthy(base, answer, since);
        r := Ok(None);
      }
    }

    // A positive answer's own pid and start time replace those of the file.
    method TakeHealthy(base: Endpoint, health: JsonText, ghost since: nat) returns (ep: Endpoint)
      requires Valid() && since <= |world.trace|
      requires JustProbed(world.cfg, world.trace, base, Ok(health)) && Positive(Ok(health))
      modifies world`trace
      ensures Valid() && Aside(old(world.trace), world.trace)
      ensures Since(since, world.trace, Healthy(ep)) && HealthyNow(world.trace, ep)
    {
      ep := WithHealthIdentity(base, health);
      Record(HealthOk(ep, base, health));
      SinceNow(since, world.trace, Healthy(ep));
      HealthyJustNow(world.trace, ep);
    }

    // A router that gave no answer is signalled; its file is to be removed.
    method DropUnhealthy(base: Endpoint, answer: Result<JsonText, string>, ghost since: nat)
      requires Valid() && since <= |world.trace| && Passive(world.trace[..since], world.trace)
      requires JustProbed(world.cfg, world.trace, base, answer) && !Positive(answer)
      modifies world
      ensures Valid() && |world.children| == old(|world.children|) && Probing(old(world.trace), world.trace)
      ensures answer.Ok? ==> Passive(old(world.trace), world.trace)
      ensures Since(since, world.trace, NoRouter) && ActsAfterLook(since, world.trace)
    {
      Record(Lacking(NotHealthy(base, answer)));
      SinceNow(since, world.trace, NoRouter);
      ghost var noted := world.trace;
      SignalAndRemove(base, answer);
      SinceLater(since, since, noted, world.trace, NoRouter);
      PassiveKeepsLook(since, noted);
      ActsLater(since, noted, world.trace);
    }

    method SignalAndRemove(base: Endpoint, answer: Result<JsonText, string>)
      requires Valid() && Last(world.trace) == Some(Lacking(NotHealthy(base, answer)))
      modifies world
      ensures Valid() && |world.children| == old(|world.children|) && Probing(old(world.trace), world.trace)
      ensures answer.Ok? ==> Passive(old(world.trace), world.trace)
    {
      if answer.Err? {
        var _ := TerminateEndpointProcess(base, Silent);
      }
      RemoveEndpointFile();
    }

    method ReachableRouterEndpoint() returns (r: Result<Option<Endpoint>, string>)
      requires Valid()
      modifies world
      ensures Valid() && |world.children| == old(|world.children|) && Passive(old(world.trace), world.trace)
      ensures r.Err? ==> Since(|old(world.trace)|, world.trace, Refusal)
      ensures r == Ok(None) ==> Since(|old(world.trace)|, world.trace, NoReach)
      ensures r.Ok? && r.value.Some? ==> LookedAt(world.cfg, world.trace, r.value.value)
    {
      r := ReadEndpointRecord();
      AbsentMeans(|old(world.trace)|, world.trace);
      if r.Ok? && r.value.Some? {
        ghost var given := |world.trace|;
        var accepts := Reaches(r.value.value);
        SinceLater(|old(world.trace)|, given, world.trace, world.trace, NoReach);
        if !accepts {
          r := Ok(None);
        }
      }
    }

    // Tries to connect to the endpoint just read, whose file is to be removed
    // when that fails.
    method Reaches(ep: Endpoint) returns (accepts: bool)
      requires Valid() && JustGiven(world.cfg, world.trace, ep)
      modifies world
      ensures Valid() && |world.children| == old(|world.children|) && Passive(old(world.trace), world.trace)
      ensures accepts ==> LookedAt(world.cfg, world.trace, ep)
      ensures !accepts ==> Since(|old(world.trace)|, world.trace, NoReach)
    {
      accepts := Connects(ep.addr);
      ConnectedMeans(world.cfg, old(world.trace), ep, accepts);
      if !accepts {
        NoteAndRemove(ep);
      }
    }

    method NoteAndRemove(ep: Endpoint)
      requires Valid() && JustUnreachable(world.cfg, world.trace, ep)
      modifies world
      ensures Valid() && |world.children| == old(|world.children|) && Passive(old(world.trace), world.trace)
      ensures |world.trace| > |old(world.trace)| && Has(world.trace[|old(world.trace)|], NoReach)
    {
      Record(Lacking(NotReachable(ep)));
      RemoveEndpointFile();
    }

    // The endpoint is ours: its process is the lock file's, or the live child.
    method OwnsRouterEndpoint(ep: Endpoint) returns (owns: bool)
      requires Valid() && LookedAt(world.cfg, world.trace, ep)
      modifies world, `child
      ensures Valid() && |world.children| == old(|world.children|) && Aside(old(world.trace), world.trace)
      ensures ChildKept(|old(world.trace)|, world.trace, old(child), child)
      ensures owns ==> JustVetted(|old(world.trace)|, world.trace, ep, false)
      ensures !owns ==>
        && Since(|old(world.trace)|, world.trace, Denial(LockIdentity))
        && (child.None? || ep.pid != Some(world.children[child.value].pid))
    {
      world.Interfere();
      var matches := IdentityMatches(ep);
      if matches {
        Record(Vetted(ep, LockIdentity, world.Seen()));
        return true;
      }
      Record(Denied(ep, LockIdentity, world.Seen()));
      SinceNow(|old(world.trace)|, world.trace, Denial(LockIdentity));
      ghost var denied := world.trace;
      LookedLater(world.cfg, old(world.trace), denied, ep);
      owns := IsLiveChild(ep);
      SinceLater(|old(world.trace)|, |old(world.trace)|, denied, world.trace, Denial(LockIdentity));
      ChildKeptLater(|old(world.trace)|, |denied|, denied, world.trace, old(child), old(child), child);
    }

    // The endpoint's process is the child this gateway holds, and it runs. A
    // child found dead is no longer held.
    method IsLiveChild(ep: Endpoint) returns (owns: bool)
      requires Valid() && LookedAt(world.cfg, world.trace, ep)
      modifies world, `child
      ensures Valid() && |world.children| == old(|world.children|) && Aside(old(world.trace), world.trace)
      ensures ChildKept(|old(world.trace)|, world.trace, old(child), child)
      ensures owns ==> JustVetted(|old(world.trace)|, world.trace, ep, false)
      ensures !owns ==> child.None? || ep.pid != Some(world.children[child.value].pid)
    {
      if ep.pid.None? || child.None? || world.children[child.value].pid != ep.pid.value {
        return false;
      }
      owns := ManagedRouterChildAlive();
      if owns {
        LookedLater(world.cfg, old(world.trace), world.trace, ep);
        NoteLiveChild(ep, child.value);
      }
    }

    ghost method NoteLiveChild(ep: Endpoint, handle: nat)
      requires Valid() && LookedAt(world.cfg, world.trace, ep)
      requires Passes(world.cfg, world.trace, ep, LiveChild(handle), world.Seen())
      modifies world`trace
      ensures Valid() && world.trace == old(world.trace) + [Vetted(ep, LiveChild(handle), world.Seen())]
    {
      Record(Vetted(ep, LiveChild(handle), world.Seen()));
    }

    // The endpoint's process is alive with the start time it claims; only a
    // test may take the gateway itself for a router.
    method FingerprintMatches(ep: Endpoint) returns (matches: bool)
      requires Valid() && HealthyNow(world.trace, ep)
      modifies world
      ensures Valid() && |world.children| == old(|world.children|) && Aside(old(world.trace), world.trace)
      ensures matches ==> JustVetted(|old(world.trace)|, world.trace, ep, true)
      ensures !matches ==> Since(|old(world.trace)|, world.trace, Denial(Fingerprint))
    {
      HealthyIsLookedAt(world.cfg, world.trace, ep);
      world.Interfere();
      matches :=
        && ep.pid.Some? && ep.start.Some? && (ep.pid.value != world.cfg.selfPid || world.cfg.allowFakeRouter)
        && ep.pid.value in world.table && world.table[ep.pid.value] == ep.start.value;
      if matches {
        Record(Vetted(ep, Fingerprint, world.Seen()));
      } else {
        Record(Denied(ep, Fingerprint, world.Seen()));
        SinceNow(|old(world.trace)|, world.trace, Denial(Fingerprint));
      }
    }

    // An endpoint that accepts connections and is ours, or at the address in use.
    method ReachableOwnedRouterEndpoint() returns (r: Result<Option<Endpoint>, string>)
      requires Valid()
      modifies world, `child
      ensures Valid() && |world.children| == old(|world.children|) && Passive(old(world.trace), world.trace)
      ensures ChildKept(|old(world.trace)|, world.trace, old(child), child)
      ensures r.Err? ==> Since(|old(world.trace)|, world.trace, Refusal)
      ensures r == Ok(None) ==> Since(|old(world.trace)|, world.trace, NoReach)
      ensures r.Ok? && r.value.Some? ==>
        && LookedAt(world.cfg, world.trace, r.value.value)
        && (JustVetted(|old(world.trace)|, world.trace, r.value.value, false) || addr == Some(r.value.value.addr))
    {
      r := ReachableRouterEndpoint();
      if r.Ok? && r.value.Some? {
        ghost var reached := world.trace;
        var owns := OwnsRouterEndpoint(r.value.value);
        LookedLater(world.cfg, reached, world.trace, r.value.value);
        ChildKeptLater(|old(world.trace)|, |reached|, reached, world.trace, old(child), old(child), child);
        if !owns && addr != Some(r.value.value.addr) {
          DenialMeans(|reached|, world.trace);
          SinceLater(|old(world.trace)|, |reached|, world.trace, world.trace, NoReach);
          return Ok(None);
        }
      }
    }

    // An endpoint that answered its health check and then, as the same process,
    // passed one of the three tests. There is no short cut for the address in
    // use.
    method HealthyOwnedRouterEndpoint() returns (r: Result<Option<Endpoint>, string>)
      requires Valid()
      modifies world, `child
      ensures Valid() && |world.children| == old(|world.children|) && Probing(old(world.trace), world.trace)
      ensures ChildKept(|old(world.trace)|, world.trace, old(child), child)
      ensures r.Err? ==> Since(|old(world.trace)|, world.trace, Refusal)
      ensures r == Ok(None) ==>
        Since(|old(world.trace)|, world.trace, NoRouter) && ActsAfterLook(|old(world.trace)|, world.trace)
      ensures r != Ok(None) ==> Passive(old(world.trace), world.trace)
      ensures r.Ok? && r.value.Some? ==>
        && LastVets(world.trace, r.value.value)
        && Since(|old(world.trace)|, world.trace, Healthy(r.value.value))
    {
      r := HealthyRouterEndpoint();
      if r.Ok? && r.value.Some? {
        ghost var answered := world.trace;
        var vetted := Vet(r.value.value);
        ChildKeptLater(|old(world.trace)|, |answered|, answered, world.trace, old(child), old(child), child);
        SinceLater(|old(world.trace)|, |old(world.trace)|, answered, world.trace, Healthy(r.value.value));
        SinceLater(|old(world.trace)|, |answered|, world.trace, world.trace, NoRouter);
        if !vetted {
          r := Ok(None);
        }
      }
    }

    // Lock identity or live child, then fingerprint.
    method Vet(ep: Endpoint) returns (vetted: bool)
      requires Valid() && HealthyNow(world.trace, ep)
      modifies world, `child
      ensures Valid() && |world.children| == old(|world.children|) && Passive(old(world.trace), world.trace)
      ensures ChildKept(|old(world.trace)|, world.trace, old(child), child)
      ensures vetted ==> LastVets(world.trace, ep)
      ensures !vetted ==> Since(|old(world.trace)|, world.trace, NoRouter)
    {
      HealthyIsLookedAt(world.cfg, world.trace, ep);
      vetted := OwnsRouterEndpoint(ep);
      if !vetted {
        ghost var disowned := world.trace;
        LookedLater(world.cfg, old(world.trace), disowned, ep);
        vetted := FingerprintMatches(ep);
        DenialMeans(|disowned|, world.trace);
        SinceLater(|old(world.trace)|, |disowned|, world.trace, world.trace, NoRouter);
        ChildKeptLater(|old(world.trace)|, |disowned|, disowned, world.trace, old(child), child, child);
      }
    }

    // The address in use becomes a vetted endpoint's, or stays what it is.
    method Adopt(ep: Endpoint)
      requires Valid() && (LastVets(world.trace, ep) || addr == Some(ep.addr))
      modifies world`trace, `addr
      ensures Valid() && addr == Some(ep.addr)
      ensures world.trace == if LastVets(old(world.trace), ep) then old(world.trace) + [Adopted(ep)] else old(world.trace)
    {
      if LastVets(world.trace, ep) {
        Record(Adopted(ep));
        assert world.trace[|world.trace| - 1] == Adopted(ep);
      }
      addr := Some(ep.addr);
    }

    method AdoptHealthy(ep: Endpoint, ghost since: nat)
      requires Valid() && LastVets(world.trace, ep) && Since(since, world.trace, Healthy(ep))
      modifies world`trace, `addr
      ensures Valid() && addr == Some(ep.addr) && world.trace == old(world.trace) + [Adopted(ep)]
      ensures FreshAdoption(since, world.trace, ep) && FreshAddress(since, world.trace, ep.addr)
    {
      FreshNow(since, world.trace, ep);
      Adopt(ep);
    }

    // A start that succeeds leaves no error.
    method AdoptStarted(ep: Endpoint, ghost since: nat)
      requires Valid() && LastVets(world.trace, ep) && Since(since, world.trace, Healthy(ep))
      modifies world`trace, `addr, `lastError
      ensures Valid() && Passive(old(world.trace), world.trace)
      ensures addr.Some? && lastError == None && FreshAddress(since, world.trace, addr.value)
    {
      AdoptHealthy(ep, since);
      lastError := None;
    }

    // ------------------------------------------------------------ the managed child

    // A child found to have exited, or that could not be waited for, is no
    // longer held.
    method ManagedRouterChildAlive() returns (alive: bool)
      requires Valid()
      modifies world, `child
      ensures Valid() && |world.children| == old(|world.children|) && Aside(old(world.trace), world.trace)
      ensures forall h :: 0 <= h < |world.children| ==> world.children[h].pid == old(world.children[h].pid)
      ensures ChildKept(|old(world.trace)|, world.trace, old(child), child)
      ensures alive <==> child.Some?
      ensures alive ==>
        && world.trace == old(world.trace) + [SawRunning(child.value)]
        && OwnChild(world.trace, world.Seen(), child.value, world.children[child.value].pid)
    {
      if child.None? {
        return false;
      }
      var waited := world.TryWait(child.value);
      KeepAddr(old(world.trace));
      alive := waited == StillRunning;
      assert alive ==> OwnChild(world.trace, world.Seen(), child.value, world.children[child.value].pid);
      if !alive {
        SinceNow(|old(world.trace)|, world.trace, Lost(child.value));
        child := None;
      }
    }

    method KillRunningChild(handle: nat) returns (killed: bool)
      requires Valid() && handle < |world.children| && world.children[handle].state != Reaped
      modifies world
      ensures Valid() && |world.children| == old(|world.children|) && Quiet(old(world.trace), world.trace)
      ensures Since(|old(world.trace)|, world.trace, if killed then End(handle) else Refusal)
    {
      killed := SignalChild(handle);
      ghost var signalled := world.trace;
      world.Wait(handle);
      KeepAddr(signalled);
      SinceLater(|old(world.trace)|, |old(world.trace)|, signalled, world.trace, if killed then End(handle) else Refusal);
    }

    method SignalChild(handle: nat) returns (killed: bool)
      requires Valid() && handle < |world.children| && world.children[handle].state != Reaped
      modifies world
      ensures Valid() && |world.children| == old(|world.children|) && Quiet(old(world.trace), world.trace)
      ensures Since(|old(world.trace)|, world.trace, if killed then End(handle) else Refusal)
    {
      killed := world.KillChild(handle);
      KeepAddr(old(world.trace));
      if !killed {
        Record(Refused(ChildNotKilled(handle)));
      }
      SinceNow(|old(world.trace)|, world.trace, if killed then End(handle) else Refusal);
    }

    // True only when the child has been killed or had exited.
    method KillManagedRouterChild() returns (gone: bool)
      requires Valid()
      modifies world, `child
      ensures Valid() && |world.children| == old(|world.children|) && Quiet(old(world.trace), world.trace)
      ensures child == None
      ensures gone ==> old(child).Some? && Since(|old(world.trace)|, world.trace, End(old(child).value))
      ensures !gone ==>
        if old(child).None? then world.trace == old(world.trace)
        else Since(|old(world.trace)|, world.trace, Refusal)
    {
      if child.None? {
        return false;
      }
      var handle := child.value;
      child := None;
      var waited := world.TryWait(handle);
      KeepAddr(old(world.trace));
      ghost var looked := world.trace;
      match waited {
        case HasExited =>
          SinceNow(|old(world.trace)|, world.trace, End(handle));
          gone := true;
        case WaitFailed =>
          Record(Refused(ChildNotKilled(handle)));
          SinceNow(|old(world.trace)|, world.trace, Refusal);
          gone := false;
        case StillRunning =>
          gone := KillRunningChild(handle);
          SinceLater(|old(world.trace)|, |looked|, world.trace, world.trace, if gone then End(handle) else Refusal);
      }
    }

    method SpawnRouterProcess() returns (r: Result<nat, string>)
      requires Valid()
      modifies world
      ensures world.Valid() && (addr.Some? ==> AdoptedBefore(world.trace, addr.value))
      ensures r.Err? ==>
        && |world.children| == old(|world.children|) && Quiet(old(world.trace), world.trace)
        && |world.trace| == |old(world.trace)| + 1 && Has(world.trace[|old(world.trace)|], Refusal)
      ensures r.Ok? ==>
        && r.value == old(|world.children|) && |world.children| == old(|world.children|) + 1
        && |world.trace| == |old(world.trace)| + 1 && old(world.trace) <= world.trace
        && world.trace[|old(world.trace)|].Spawned? && world.trace[|old(world.trace)|].handle == r.value
    {
      if !world.cfg.routerBinFound {
        Record(Refused(NoRouterBinary));
        return Err("router binary not found in current exe/target");
      }
      var handle := world.Spawn();
      KeepAddr(old(world.trace));
      r := if handle.Some? then Ok(handle.value) else Err("failed to spawn gateway-owned router process");
    }

    method DeadlinePassed(polls: nat) returns (passed: bool)
      requires Valid()
      modifies world
      ensures Valid() && |world.children| == old(|world.children|)
      ensures world.trace == if passed then old(world.trace) + [TimedOut] else old(world.trace)
      ensures polls >= MAX_POLLS ==> passed
    {
      passed := world.DeadlinePassed(polls);
      KeepAddr(old(world.trace));
    }

    method UnreachableOwnerMessage() returns (owner: Option<string>)
      requires Valid()
      modifies world
      ensures Valid() && |world.children| == old(|world.children|)
      ensures world.trace == old(world.trace) + [OwnerReported(owner)]
    {
      owner := world.UnreachableOwnerMessage();
      KeepAddr(old(world.trace));
    }

    // The probe, with what it saw counted from an earlier moment.
    method Probe(ghost since: nat) returns (found: Result<Option<Endpoint>, string>)
      requires Valid() && since <= |world.trace|
      modifies world, `child
      ensures Valid() && |world.children| == old(|world.children|) && Probing(old(world.trace), world.trace)
      ensures ChildKept(|old(world.trace)|, world.trace, old(child), child)
      ensures found.Err? ==> Since(since, world.trace, Refusal)
      ensures found == Ok(None) ==> Since(since, world.trace, NoRouter)
      ensures found.Ok? && found.value.Some? ==>
        LastVets(world.trace, found.value.value) && Since(since, world.trace, Healthy(found.value.value))
    {
      ghost var before := |world.trace|;
      found := HealthyOwnedRouterEndpoint();
      SinceLater(since, before, world.trace, world.trace, Refusal);
      SinceLater(since, before, world.trace, world.trace, NoRouter);
      if found.Ok? && found.value.Some? {
        SinceLater(since, before, world.trace, world.trace, Healthy(found.value.value));
      }
    }

    // Polls until a healthy owned router answers, the child is found dead, or
    // the deadline passes.
    method WaitForHealthyOwnedRouter() returns (r: Result<Option<Endpoint>, string>)
      requires Valid()
      modifies world, `child
      ensures Valid() && |world.children| == old(|world.children|) && Probing(old(world.trace), world.trace)
      ensures ChildKept(|old(world.trace)|, world.trace, old(child), child)
      ensures r.Err? ==> Since(|old(world.trace)|, world.trace, Refusal)
      ensures r == Ok(None) ==> child == None || Since(|old(world.trace)|, world.trace, Timeout)
      ensures r.Ok? && r.value.Some? ==>
        && LastVets(world.trace, r.value.value)
        && Since(|old(world.trace)|, world.trace, Healthy(r.value.value))
    {
      var polls := 0;
      while true
        invariant polls <= MAX_POLLS
        invariant Valid() && |world.children| == old(|world.children|) && Probing(old(world.trace), world.trace)
        invariant ChildKept(|old(world.trace)|, world.trace, old(child), child)
        decreases MAX_POLLS - polls
      {
        ghost var before, held := world.trace, child;
        var passed := DeadlinePassed(polls);
        if passed {
          SinceNow(|old(world.trace)|, world.trace, Timeout);
          ChildKeptLater(|old(world.trace)|, |before|, before, world.trace, old(child), held, child);
          return Ok(None);
        }
        var alive;
        r, alive := Poll(|old(world.trace)|);
        ChildKeptLater(|old(world.trace)|, |before|, before, world.trace, old(child), held, child);
        if r != Ok(None) || !alive {
          return;
        }
        polls := polls + 1;
      }
    }

    // One poll: the probe, and when it finds nothing a look at the child.
    method Poll(ghost since: nat) returns (r: Result<Option<Endpoint>, string>, alive: bool)
      requires Valid() && since <= |world.trace|
      modifies world, `child
      ensures Valid() && |world.children| == old(|world.children|) && Probing(old(world.trace), world.trace)
      ensures ChildKept(|old(world.trace)|, world.trace, old(child), child)
      ensures r.Err? ==> Since(since, world.trace, Refusal)
      ensures r == Ok(None) && !alive ==> child == None
      ensures r.Ok? && r.value.Some? ==>
        LastVets(world.trace, r.value.value) && Since(since, world.trace, Healthy(r.value.value))
    {
      r := Probe(since);
      alive := true;
      if r == Ok(None) {
        ghost var probed, held := world.trace, child;
        alive := ManagedRouterChildAlive();
        ChildKeptLater(|old(world.trace)|, |probed|, probed, world.trace, old(child), held, child);
      }
    }

    // ------------------------------------------------------------ operations

    // Clears away whatever router is left: the last child is gone or could not
    // be killed, the process named by the lock file was signalled unless there
    // was none, and the address file is to be removed.
    method ClearTheGround()
      requires Valid()
      modifies world, `child
      ensures Valid() && |world.children| == old(|world.children|) && Quiet(old(world.trace), world.trace)
      ensures child == None
      ensures ChildHandled(|old(world.trace)|, world.trace, old(child))
      ensures Since(|old(world.trace)|, world.trace, LockHandled)
      ensures |world.trace| > |old(world.trace)| && world.trace[|world.trace| - 1].RemovalTried?
    {
      var _ := KillManagedRouterChild();
      ghost var killed := world.trace;
      var _ := TerminateRouterFromLock();
      SinceNow(|old(world.trace)|, world.trace, LockHandled);
      ghost var handled := world.trace;
      RemoveEndpointFile();
      SinceLater(|old(world.trace)|, |old(world.trace)|, handled, world.trace, LockHandled);
      SinceLater(|old(world.trace)|, |old(world.trace)|, killed, world.trace, Refusal);
      if old(child).Some? {
        SinceLater(|old(world.trace)|, |old(world.trace)|, killed, world.trace, End(old(child).value));
      }
    }

    // Spawns and counts a router once the ground is clear.
    method ReplaceRouterProcess() returns (r: Result<nat, string>)
      requires Valid()
      modifies world, `child, `restartCount
      ensures Valid() && old(world.trace) <= world.trace
      ensures r.Err? ==>
        && |world.children| == old(|world.children|) && Quiet(old(world.trace), world.trace)
        && Since(|old(world.trace)|, world.trace, Refusal)
      ensures r.Ok? ==>
        && child == Some(r.value) && |world.children| == old(|world.children|) + 1
        && |world.trace| > |old(world.trace)| + 1
        && world.trace[|world.trace| - 1].Spawned? && world.trace[|world.trace| - 1].handle == r.value
        && world.trace[|world.trace| - 2].RemovalTried?
        && Quiet(old(world.trace), world.trace[..|world.trace| - 1])
      ensures Since(|old(world.trace)|, world.trace, LockHandled)
      ensures ChildHandled(|old(world.trace)|, world.trace, old(child))
    {
      ClearTheGround();
      ghost var cleared := world.trace;
      r := SpawnRouterProcess();
      if r.Ok? {
        restartCount := (restartCount + 1) % COUNTER;
        child := Some(r.value);
        assert world.trace[..|world.trace| - 1] == cleared;
      }
      ClearedLater(|old(world.trace)|, cleared, world.trace, old(child));
    }

    // One round of clearing the ground, spawning and waiting.
    method StartAttempt() returns (outcome: Outcome)
      requires Valid()
      modifies world, this
      ensures Valid() && old(world.trace) <= world.trace
      ensures old(|world.children|) <= |world.children| <= old(|world.children|) + 1
      ensures AtMostOneSpawn(|old(world.trace)|, world.trace)
      ensures outcome.Started? ==>
        && addr.Some? && lastError == None && |world.children| == old(|world.children|) + 1
        && FreshAddress(|old(world.trace)|, world.trace, addr.value)
      ensures outcome.Retry? ==>
        && |world.children| == old(|world.children|) + 1 && addr == None
        && SpawnsAreGone(|old(world.trace)|, world.trace)
      ensures outcome.Failed? ==>
        && (addr == old(addr) || addr == None)
        && Since(|old(world.trace)|, world.trace, Refusal)
    {
      var spawned := ReplaceRouterProcess();
      if spawned.Err? {
        return Failed(spawned.error);
      }
      ghost var started := world.trace;
      outcome := AwaitChild(spawned.value);
      OneSpawn(old(world.trace), started, world.trace);
      match outcome
      case Started => FreshLater(|old(world.trace)|, |started|, world.trace, world.trace, addr.value);
      case Retry =>
      case Failed(_) => SinceLater(|old(world.trace)|, |started|, world.trace, world.trace, Refusal);
    }

    // The spawned child becomes the healthy router, or is given up on.
    method AwaitChild(ghost handle: nat) returns (outcome: Outcome)
      requires Valid() && child == Some(handle)
      modifies world, this
      ensures Valid() && |world.children| == old(|world.children|) && Quiet(old(world.trace), world.trace)
      ensures outcome.Started? ==>
        && addr.Some? && lastError == None
        && FreshAddress(|old(world.trace)|, world.trace, addr.value)
      ensures outcome.Retry? ==> addr == None && Since(|old(world.trace)|, world.trace, End(handle))
      ensures outcome.Failed? ==>
        && (addr == old(addr) || addr == None)
        && Since(|old(world.trace)|, world.trace, Refusal)
    {
      var healthy := WaitForHealthyOwnedRouter();
      if healthy.Err? {
        return Failed(healthy.error);
      }
      if healthy.value.Some? {
        AdoptStarted(healthy.value.value, |old(world.trace)|);
        return Started;
      }
      SinceLater(0, |old(world.trace)|, world.trace, world.trace, Lost(handle));
      outcome := GiveUpOnChild(handle, |old(world.trace)|);
    }

    // The spawned router never became healthy: kill it, or say why not to retry.
    // A child that the wait already saw exit is no longer held, so that it
    // counts as "could not be killed" and is never retried.
    method GiveUpOnChild(ghost handle: nat, ghost since: nat) returns (outcome: Outcome)
      requires Valid() && since <= |world.trace|
      requires child == Some(handle) || (child == None && Since(0, world.trace, Lost(handle)))
      modifies world, this
      ensures Valid() && |world.children| == old(|world.children|) && Quiet(old(world.trace), world.trace)
      ensures addr == None && !outcome.Started? && Since(since, world.trace, Removal)
      ensures old(child) == None ==> outcome.Failed?
      ensures outcome.Retry? ==>
        && lastError == old(lastError) && Since(since, world.trace, End(handle))
        && Last(world.trace) == Some(OwnerReported(None))
      ensures outcome.Failed? ==>
        && lastError.Some? && outcome.error == FAILED_TO_START + lastError.value
        && Since(since, world.trace, Refusal)
    {
      var killed, owner := Withdraw(handle);
      SinceLater(since, |old(world.trace)|, world.trace, world.trace, Removal);
      SinceLater(since, |old(world.trace)|, world.trace, world.trace, End(handle));
      SinceLater(since, |old(world.trace)|, world.trace, world.trace, Refusal);
      if owner.None? && killed {
        return Retry;
      }
      lastError := if owner.Some? then owner else Some(NOT_KILLED);
      outcome := Failed(FAILED_TO_START + lastError.value);
    }

    // Ends the child, removes the address file, drops the address, and asks who
    // else may own the router.
    method Withdraw(ghost handle: nat) returns (killed: bool, owner: Option<string>)
      requires Valid()
      requires child == Some(handle) || (child == None && Since(0, world.trace, Lost(handle)))
      modifies world, `child, `addr
      ensures Valid() && |world.children| == old(|world.children|) && Quiet(old(world.trace), world.trace)
      ensures addr == None && Since(|old(world.trace)|, world.trace, Removal)
      ensures old(child) == None ==> !killed
      ensures killed ==> Since(|old(world.trace)|, world.trace, End(handle))
      ensures !killed || owner.Some? ==> Since(|old(world.trace)|, world.trace, Refusal)
      ensures Last(world.trace) == Some(OwnerReported(owner))
    {
      killed := EndChild(handle);
      ghost var tried := world.trace;
      owner := RemoveAndAsk();
      WithdrawnMeans(|old(world.trace)|, tried, world.trace, handle, owner);
    }

    method RemoveAndAsk() returns (owner: Option<string>)
      requires Valid()
      modifies world, `addr
      ensures Valid() && |world.children| == old(|world.children|) && addr == None
      ensures |world.trace| == |old(world.trace)| + 2 && old(world.trace) <= world.trace
      ensures world.trace[|old(world.trace)|].RemovalTried?
      ensures world.trace[|old(world.trace)| + 1] == OwnerReported(owner)
    {
      RemoveEndpointFile();
      addr := None;
      owner := UnreachableOwnerMessage();
    }

    // Kills the child; false, on record, when that fails or it was lost before.
    method EndChild(ghost handle: nat) returns (killed: bool)
      requires Valid()
      requires child == Some(handle) || (child == None && Since(0, world.trace, Lost(handle)))
      modifies world, `child
      ensures Valid() && |world.children| == old(|world.children|) && Quiet(old(world.trace), world.trace)
      ensures child == None && (old(child) == None ==> !killed)
      ensures killed ==> Since(|old(world.trace)|, world.trace, End(handle))
      ensures !killed ==> Since(|old(world.trace)|, world.trace, Refusal)
    {
      killed := KillManagedRouterChild();
      if old(child).None? {
        LostMeans(old(world.trace), world.trace, handle);
        Record(Refused(ChildAlreadyLost(handle)));
        SinceNow(|old(world.trace)|, world.trace, Refusal);
      }
    }

    // At most two attempts, the second only once the first child is gone. It
    // ends in an error only when something was refused or both children were
    // spawned and given up.
    method StartWithRetry(ghost since: nat) returns (r: Result<(), string>)
      requires Valid() && since <= |world.trace|
      requires forall i :: since <= i < |world.trace| ==> !world.trace[i].Spawned?
      modifies world, this
      ensures Valid() && old(world.trace) <= world.trace
      ensures old(|world.children|) <= |world.children| <= old(|world.children|) + 2
      ensures SpawnsGuarded(since, world.trace)
      ensures r.Ok? ==>
        && addr.Some? && lastError == None && |world.children| > old(|world.children|)
        && FreshAddress(since, world.trace, addr.value)
      ensures r.Err? ==> addr == old(addr) || addr == None
      ensures r.Err? ==>
        Since(since, world.trace, Refusal)
        || (|world.children| == old(|world.children|) + 2 && lastError == Some(NOT_HEALTHY))
    {
      for attempt := 0 to 2
        invariant Valid() && old(world.trace) <= world.trace
        invariant |world.children| == old(|world.children|) + attempt
        invariant addr == old(addr) || addr == None
        invariant SpawnsGuarded(since, world.trace) && SpawnsAreGone(since, world.trace)
      {
        ghost var before := world.trace;
        var outcome := StartAttempt();
        GuardedAttempt(since, before, world.trace);
        match outcome
        case Started =>
          FreshLater(since, |before|, world.trace, world.trace, addr.value);
          return Ok(());
        case Failed(error) =>
          SinceLater(since, |before|, world.trace, world.trace, Refusal);
          return Err(error);
        case Retry => GoneAttempt(since, before, world.trace);
      }
      ghost var tried := world.trace;
      r := OutOfAttempts();
      SinceLater(since, |tried|, world.trace, world.trace, Refusal);
      QuietKeepsGuards(since, tried, world.trace);
    }

    method OutOfAttempts() returns (r: Result<(), string>)
      requires Valid()
      modifies world, `lastError
      ensures Valid() && |world.children| == old(|world.children|) && Quiet(old(world.trace), world.trace)
      ensures lastError.Some? && r == Err(FAILED_TO_START + lastError.value)
      ensures Since(|old(world.trace)|, world.trace, Refusal) || lastError == Some(NOT_HEALTHY)
    {
      var owner := UnreachableOwnerMessage();
      if owner.Some? {
        SinceNow(|old(world.trace)|, world.trace, Refusal);
      }
      lastError := if owner.Some? then owner else Some(NOT_HEALTHY);
      r := Err(FAILED_TO_START + lastError.value);
    }

    // The attempts, once a look at the address file has found no router.
    method StartAfterLook(ghost since: nat) returns (r: Result<(), string>)
      requires Valid() && since <= |world.trace| && Quiet(world.trace[..since], world.trace)
      requires Since(since, world.trace, NoRouter) && ActsAfterLook(since, world.trace)
      modifies world, this
      ensures Valid() && old(world.trace) <= world.trace
      ensures old(|world.children|) <= |world.children| <= old(|world.children|) + 2
      ensures SpawnsGuarded(since, world.trace) && ActsAfterLook(since, world.trace)
      ensures r.Ok? ==>
        && addr.Some? && lastError == None && |world.children| > old(|world.children|)
        && FreshAddress(since, world.trace, addr.value)
      ensures r.Err? ==> addr == old(addr) || addr == None
      ensures r.Err? ==>
        Since(since, world.trace, Refusal)
        || (|world.children| == old(|world.children|) + 2 && lastError == Some(NOT_HEALTHY))
    {
      r := StartWithRetry(since);
      ActsLater(since, old(world.trace), world.trace);
    }

    // Ends Ok only with the address of an endpoint that in this call answered
    // its health check, was vetted and then adopted; in an error only when
    // something was refused or two children were given up. A healthy router is
    // adopted without spawning or signalling anything, and nothing is spawned or
    // signalled before a look at the address file found none. Spawns at most two
    // children, counts each, and spawns the second only once the first is gone.
    method EnsureStarted() returns (r: Result<(), string>)
      requires Valid()
      modifies world, this
      ensures Valid() && old(world.trace) <= world.trace
      ensures old(|world.children|) <= |world.children| <= old(|world.children|) + 2
      ensures SpawnsGuarded(|old(world.trace)|, world.trace) && ActsAfterLook(|old(world.trace)|, world.trace)
      ensures r.Ok? && |world.children| == old(|world.children|) ==> Passive(old(world.trace), world.trace)
      ensures r.Ok? ==>
        && addr.Some? && lastError == None
        && FreshAddress(|old(world.trace)|, world.trace, addr.value)
      ensures r.Err? ==> addr == old(addr) || addr == None
      ensures r.Err? ==>
        Since(|old(world.trace)|, world.trace, Refusal)
        || (|world.children| == old(|world.children|) + 2 && lastError == Some(NOT_HEALTHY))
    {
      var found := HealthyOwnedRouterEndpoint();
      if found.Err? {
        PassiveKeepsRules(old(world.trace), world.trace);
        return Err(found.error);
      }
      if found.value.Some? {
        AdoptStarted(found.value.value, |old(world.trace)|);
        PassiveKeepsRules(old(world.trace), world.trace);
        return Ok(());
      }
      r := StartAfterLook(|old(world.trace)|);
    }

    // Asks a router of ours to stop, if one is reachable, then starts one.
    method Restart() returns (r: Result<(), string>)
      requires Valid()
      modifies world, this
      ensures Valid() && old(world.trace) <= world.trace
      ensures old(|world.children|) <= |world.children| <= old(|world.children|) + 2
      ensures AskedToStop(|old(world.trace)|, world.trace)
      ensures r.Ok? ==>
        && addr.Some? && lastError == None
        && FreshAddress(|old(world.trace)|, world.trace, addr.value)
      ensures r.Err? ==> addr == None
      ensures r.Err? ==>
        Since(|old(world.trace)|, world.trace, Refusal) || |world.children| == old(|world.children|) + 2
    {
      var _ := Shutdown();
      ghost var asked := world.trace;
      var _ := KillManagedRouterChild();
      addr := None;
      ghost var stopped := |world.trace|;
      r := EnsureStarted();
      AskedLater(|old(world.trace)|, asked, world.trace);
      SinceLater(|old(world.trace)|, stopped, world.trace, world.trace, Refusal);
      if r.Ok? {
        FreshLater(|old(world.trace)|, stopped, world.trace, world.trace, addr.value);
      }
    }

    // "Running" is reported only for an endpoint, with its pid and start time,
    // that in this call was healthy, vetted and adopted; "unhealthy" only when
    // the address file could not be used; "stopped" only when a start failed or
    // its router was gone or disowned when looked at again. Like a start, it
    // spawns and signals nothing before a look has found no router.
    method Status() returns (report: StatusReport)
      requires Valid()
      modifies world, this
      ensures Valid() && old(world.trace) <= world.trace
      ensures ActsAfterLook(|old(world.trace)|, world.trace)
      ensures report.restartCount == restartCount
      ensures report.status == IsRunning ==>
        addr.Some? && FreshAdoption(|old(world.trace)|, world.trace, Endpoint(addr.value, report.pid, report.start))
      ensures report.status != IsRunning ==> report.pid == None && report.start == None
      ensures report.status == IsUnhealthy ==>
        report.error.Some? && Since(|old(world.trace)|, world.trace, Refusal)
      ensures report.status == IsStopped ==>
        || Since(|old(world.trace)|, world.trace, Refusal) || |world.children| == old(|world.children|) + 2
        || LostAgain(|old(world.trace)|, world.trace)
    {
      var found := HealthyOwnedRouterEndpoint();
      if found == Ok(None) {
        report := StartAndReport(|old(world.trace)|);
      } else {
        report := ReportProbe(found, |old(world.trace)|);
        PassiveKeepsRules(old(world.trace), world.trace);
      }
    }

    // The status once a look at the address file has found no router.
    method StartAndReport(ghost since: nat) returns (report: StatusReport)
      requires Valid() && since <= |world.trace|
      requires Since(since, world.trace, NoRouter) && ActsAfterLook(since, world.trace)
      modifies world, this
      ensures Valid() && old(world.trace) <= world.trace
      ensures ActsAfterLook(since, world.trace)
      ensures report.restartCount == restartCount
      ensures report.status == IsRunning ==>
        addr.Some? && FreshAdoption(since, world.trace, Endpoint(addr.value, report.pid, report.start))
      ensures report.status != IsRunning ==> report.pid == None && report.start == None
      ensures report.status == IsUnhealthy ==> report.error.Some? && Since(since, world.trace, Refusal)
      ensures report.status == IsStopped ==>
        || Since(since, world.trace, Refusal) || |world.children| == old(|world.children|) + 2
        || LostAgain(since, world.trace)
    {
      var started := EnsureStarted();
      ActsLater(since, old(world.trace), world.trace);
      if started.Err? {
        SinceLater(since, |old(world.trace)|, world.trace, world.trace, Refusal);
        return StatusReport(IsStopped, None, None, restartCount, Some(started.error));
      }
      report := ReportAgain(since, |old(world.trace)|);
    }

    // The status after a start: the router just adopted is looked at again.
    method ReportAgain(ghost since: nat, ghost start: nat) returns (report: StatusReport)
      requires Valid() && since <= start <= |world.trace|
      requires addr.Some? && FreshAddress(start, world.trace, addr.value)
      requires Since(since, world.trace, NoRouter) && ActsAfterLook(since, world.trace)
      modifies world, this
      ensures Valid() && old(world.trace) <= world.trace
      ensures ActsAfterLook(since, world.trace)
      ensures report.restartCount == restartCount && |world.children| == old(|world.children|)
      ensures report.status == IsRunning ==>
        addr.Some? && FreshAdoption(since, world.trace, Endpoint(addr.value, report.pid, report.start))
      ensures report.status != IsRunning ==> report.pid == None && report.start == None
      ensures report.status == IsUnhealthy ==> report.error.Some? && Since(since, world.trace, Refusal)
      ensures report.status == IsStopped ==> LostAgain(since, world.trace)
    {
      var found := Probe(|world.trace|);
      LostNow(since, start, old(world.trace), world.trace, addr.value);
      SinceLater(since, |old(world.trace)|, world.trace, world.trace, Refusal);
      if found.Ok? && found.value.Some? {
        SinceLater(since, |old(world.trace)|, world.trace, world.trace, Healthy(found.value.value));
      }
      report := ReportProbe(found, since);
      ActsLater(since, old(world.trace), world.trace);
    }

    // The status a probe gives.
    method ReportProbe(found: Result<Option<Endpoint>, string>, ghost since: nat) returns (report: StatusReport)
      requires Valid()
      requires found.Ok? && found.value.Some? ==>
        LastVets(world.trace, found.value.value) && Since(since, world.trace, Healthy(found.value.value))
      modifies world`trace, `addr
      ensures Valid() && old(world.trace) <= world.trace && |world.children| == old(|world.children|)
      ensures report.restartCount == restartCount
      ensures found.Ok? && found.value.Some? ==>
        && report.status == IsRunning && addr.Some?
        && world.trace == old(world.trace) + [Adopted(found.value.value)]
        && FreshAdoption(since, world.trace, Endpoint(addr.value, report.pid, report.start))
      ensures found == Ok(None) ==>
        report == StatusReport(IsStopped, None, None, restartCount, lastError) && world.trace == old(world.trace)
      ensures found.Err? ==>
        && report == StatusReport(IsUnhealthy, None, None, restartCount, Some(found.error))
        && world.trace == old(world.trace)
    {
      if found.Err? {
        return StatusReport(IsUnhealthy, None, None, restartCount, Some(found.error));
      }
      if found.value.None? {
        return StatusReport(IsStopped, None, None, restartCount, lastError);
      }
      var ep := found.value.value;
      AdoptHealthy(ep, since);
      report := StatusReport(IsRunning, ep.pid, ep.start, restartCount, lastError);
    }

    // True after a connection was refused, false after the deadline passed with
    // every connection accepted.
    method WaitUntilUnreachable(target: string) returns (unreachable: bool)
      requires Valid()
      modifies world
      ensures Valid() && |world.children| == old(|world.children|) && Passive(old(world.trace), world.trace)
      ensures |world.trace| > |old(world.trace)|
      ensures Last(world.trace) == Some(if unreachable then Connected(target, false) else TimedOut)
      ensures !unreachable ==> Since(|old(world.trace)|, world.trace, Timeout)
    {
      var polls := 0;
      while true
        invariant polls <= MAX_POLLS
        invariant Valid() && |world.children| == old(|world.children|) && Passive(old(world.trace), world.trace)
        decreases MAX_POLLS - polls
      {
        var passed := DeadlinePassed(polls);
        if passed {
          SinceNow(|old(world.trace)|, world.trace, Timeout);
          return false;
        }
        var accepts := Connects(target);
        if !accepts {
          return true;
        }
        polls := polls + 1;
      }
    }

    method ForceStop(ep: Endpoint) returns (stopped: bool)
      requires Valid() && Last(world.trace) == Some(TimedOut)
      modifies world, `child
      ensures Valid() && |world.children| == old(|world.children|) && Quiet(old(world.trace), world.trace)
      ensures child == old(child) || child == None
      ensures stopped ==> Last(world.trace) == Some(Connected(ep.addr, false))
    {
      var forced := TerminateEndpointProcess(ep, Overdue);
      if !forced {
        var killed := KillManagedRouterChild();
        if !killed {
          return false;
        }
      }
      stopped := WaitUntilUnreachable(ep.addr);
    }

    // Asks the router to stop; an error answer is remembered, not returned.
    method RequestShutdown() returns (graceful: bool)
      requires Valid() && addr.Some?
      modifies world, `requestSeq, `lastError
      ensures Valid() && |world.children| == old(|world.children|) && Passive(old(world.trace), world.trace)
      ensures |world.trace| == |old(world.trace)| + 2
      ensures world.trace[|old(world.trace)|] == Requested(addr.value, old(requestSeq))
      ensures AnsweredLast(world.trace) && (graceful <==> Positive(world.trace[|world.trace| - 1].answer))
      ensures graceful ==> lastError == old(lastError)
      ensures !graceful ==> lastError.Some?
    {
      var answer := CallOnce();
      graceful := answer.Ok? && AsBool(Get(answer.value, "ok")) == Some(true);
      if answer.Err? {
        lastError := Some(answer.error);
      } else if !graceful {
        var error := AsStr(Get(answer.value, "error"));
        lastError := Some(if error.Some? then error.value else "router shutdown failed");
      }
    }

    // Ends Ok with no address in use: either no router of ours was reachable
    // and no child is held; or one was asked to stop, which it may have agreed
    // to, its address then refused a connection, and its file is to be removed.
    // Force is used only after the deadline.
    method Shutdown() returns (r: Result<ShutdownReport, string>)
      requires Valid()
      modifies world, this
      ensures Valid() && |world.children| == old(|world.children|) && Quiet(old(world.trace), world.trace)
      ensures restartCount == old(restartCount) && AskedToStop(|old(world.trace)|, world.trace)
      ensures r.Ok? ==> addr == None
      ensures r.Ok? ==>
        || (child == None && r.value == ShutdownReport(true, false, None, None)
            && Since(|old(world.trace)|, world.trace, NoReach))
        || (SilentAndRemoved(world.trace) && AnsweredSince(|old(world.trace)|, world.trace, r.value.graceful)
            && Since(|old(world.trace)|, world.trace, Request))
      ensures r.Ok? && r.value.forced ==> Since(|old(world.trace)|, world.trace, Timeout)
      ensures r.Err? ==>
        Since(|old(world.trace)|, world.trace, Refusal) || Since(|old(world.trace)|, world.trace, Timeout)
    {
      var found := ReachableOwnedRouterEndpoint();
      if found.Err? {
        return Err(found.error);
      }
      ghost var reached := world.trace;
      if found.value.None? {
        var _ := KillManagedRouterChild();
        SinceLater(|old(world.trace)|, |old(world.trace)|, reached, world.trace, NoReach);
        addr := None;
        return Ok(ShutdownReport(true, false, None, None));
      }
      Adopt(found.value.value);
      r := StopRouter(found.value.value, |old(world.trace)|);
    }

    method StopRouter(ep: Endpoint, ghost since: nat) returns (r: Result<ShutdownReport, string>)
      requires Valid() && addr == Some(ep.addr) && since <= |world.trace|
      modifies world, this
      ensures Valid() && |world.children| == old(|world.children|) && Quiet(old(world.trace), world.trace)
      ensures restartCount == old(restartCount)
      ensures Since(since, world.trace, Request)
      ensures r.Ok? ==>
        && addr == None && SilentAndRemoved(world.trace)
        && AnsweredSince(since, world.trace, r.value.graceful)
        && r.value.pid == ep.pid && r.value.start == ep.start
      ensures r.Err? || r.value.forced ==> Since(since, world.trace, Timeout)
    {
      var graceful := RequestShutdown();
      ghost var asked := world.trace;
      assert Has(asked[|old(world.trace)|], Request);
      var stopped, forced := StopOrForce(ep);
      SinceLater(since, since, asked, world.trace, Request);
      SinceLater(since, |asked|, world.trace, world.trace, Timeout);
      AnsweredLater(since, asked, world.trace, graceful);
      if !stopped {
        return Err("router daemon did not stop");
      }
      addr := None;
      r := Ok(ShutdownReport(graceful, forced, ep.pid, ep.start));
    }

    // Waits for the address to go silent, and forces it when it does not.
    method StopOrForce(ep: Endpoint) returns (stopped: bool, forced: bool)
      requires Valid()
      modifies world, `child
      ensures Valid() && |world.children| == old(|world.children|) && Quiet(old(world.trace), world.trace)
      ensures stopped ==> SilentAndRemoved(world.trace)
      ensures forced || stopped
      ensures forced ==> Since(|old(world.trace)|, world.trace, Timeout)
    {
      stopped := WaitUntilUnreachable(ep.addr);
      forced := !stopped;
      ghost var waited := world.trace;
      if forced {
        stopped := ForceStop(ep);
      }
      if stopped {
        RemoveEndpointFile();
      }
      SinceLater(|old(world.trace)|, |old(world.trace)|, waited, world.trace, Timeout);
    }

    // Sends one request to the address in use, under the next request number,
    // and gives what comes back.
    method CallOnce() returns (r: Result<JsonText, string>)
      requires Valid()
      modifies world, `requestSeq
      ensures Valid() && |world.children| == old(|world.children|) && Passive(old(world.trace), world.trace)
      ensures addr.Some? ==>
        && world.trace == old(world.trace)
           + [Requested(addr.value, old(requestSeq)), Answered(addr.value, Numbered(old(requestSeq)), r)]
        && requestSeq == (old(requestSeq) + 1) % COUNTER
      ensures addr.None? ==> r.Err? && world.trace == old(world.trace) && requestSeq == old(requestSeq)
    {
      if addr.None? {
        return Err("router daemon address is unavailable");
      }
      var id := requestSeq;
      requestSeq := (requestSeq + 1) % COUNTER;
      Record(Requested(addr.value, id));
      r := Exchange(addr.value, Numbered(id));
    }

    // Starts the router if need be and asks it.
    method StartAndAsk() returns (r: Result<Result<JsonText, string>, string>)
      requires Valid()
      modifies world, this
      ensures Valid() && old(world.trace) <= world.trace && old(|world.children|) <= |world.children|
      ensures r.Ok? ==>
        Since(|old(world.trace)|, world.trace, Request) && AnswerIs(world.trace, r.value)
      ensures r.Err? ==>
        Since(|old(world.trace)|, world.trace, Refusal) || |world.children| == old(|world.children|) + 2
    {
      var started := EnsureStarted();
      if started.Err? {
        return Err(started.error);
      }
      ghost var ready := |world.trace|;
      var answer := CallOnce();
      assert Has(world.trace[ready], Request);
      r := Ok(answer);
    }

    // Asks once more, after another start, when the first request got no
    // answer. What it returns is what the last answer says, unless no router
    // could be started.
    method Call() returns (r: Result<JsonText, string>)
      requires Valid()
      modifies world, this
      ensures Valid() && old(world.trace) <= world.trace
      ensures r.Ok? ==> Since(|old(world.trace)|, world.trace, Request)
      ensures
        || (Since(|old(world.trace)|, world.trace, Request) && ResultSays(world.trace, r))
        || (r.Err? && (Since(|old(world.trace)|, world.trace, Refusal)
                       || |world.children| >= old(|world.children|) + 2))
    {
      var asked := StartAndAsk();
      if asked.Err? {
        return Err(asked.error);
      }
      if asked.value.Err? {
        lastError := Some(asked.value.error);
        addr := None;
        ghost var before := |world.trace|;
        asked := StartAndAsk();
        SinceLater(|old(world.trace)|, before, world.trace, world.trace, Request);
        SinceLater(|old(world.trace)|, before, world.trace, world.trace, Refusal);
        if asked.Err? {
          return Err(asked.error);
        }
      }
      r := CallResult(asked.value);
    }

    // Asks a router that is already there; never starts one.
    method CallExisting() returns (r: Result<JsonText, string>)
      requires Valid()
      modifies world, this
      ensures Valid() && Passive(old(world.trace), world.trace)
      ensures |world.children| == old(|world.children|)
      ensures
        || (Since(|old(world.trace)|, world.trace, Request) && ResultSays(world.trace, r))
        || (r.Err? && (Since(|old(world.trace)|, world.trace, Refusal) || Since(|old(world.trace)|, world.trace, NoReach)))
    {
      var found := ReachableOwnedRouterEndpoint();
      if found.Err? {
        return Err(found.error);
      }
      if found.value.None? {
        return Err("router daemon is not reachable");
      }
      Adopt(found.value.value);
      ghost var ready := |world.trace|;
      var answer := CallOnce();
      assert Has(world.trace[ready], Request);
      r := CallResult(answer);
    }
  }

  // The payload of a positive answer, the error of any other.
  function CallResult(answer: Result<JsonText, string>): (r: Result<JsonText, string>)
    ensures r.Ok? <==> Positive(answer)
    ensures answer.Err? ==> r == answer
    ensures answer.Ok? && r.Err? ==> r.error == ErrorIn(answer.value)
  {
    match answer
    case Err(error) => Err(error)
    case Ok(v) =>
      if AsBool(Get(v, "ok")) == Some(true) then
        var payload := Get(v, "payload");
        Ok(if payload.Some? then payload.value else Null)
      else
        var error := AsStr(Get(v, "error"));
        Err(if error.Some? then error.value else "router call failed")
  }

  // ---------------------------------------------------------------- whole runs

  // Any sequence of operations of a gateway that starts with no child and no
  // address, on any system, with anything happening between system calls:
  // every kill, adoption and request is justified at its moment, the counter
  // is the number of children spawned, and the address in use was adopted.
  method RunOperations(world: World, operations: seq<Operation>) returns (router: RouterProcess)
    requires world.Valid() && world.children == [] && world.trace == []
    modifies world
    ensures fresh(router) && router.world == world
    ensures Safe(world.cfg, world.trace)
    ensures router.restartCount == |world.children| % COUNTER
    ensures router.addr.Some? ==> AdoptedBefore(world.trace, router.addr.value)
  {
    router := new RouterProcess(world);
    for i := 0 to |operations|
      invariant fresh(router) && router.world == world && router.Valid()
    {
      match operations[i]
      case EnsureStartedOp => var _ := router.EnsureStarted();
      case RestartOp => var _ := router.Restart();
      case StatusOp => var _ := router.Status();
      case ShutdownOp => var _ := router.Shutdown();
      case CallOp => var _ := router.Call();
      case CallExistingOp => var _ := router.CallExisting();
    }
  }

  // In a safe trace no process of another program is ever signalled: each
  // killed pid, at that moment, belonged to a child of this gateway that had
  // not been reaped, or to another process than the gateway that our router's
  // lock record named by pid and start time.
  lemma KilledProcesses(cfg: Config, trace: seq<Event>, i: nat)
    requires Safe(cfg, trace) && i < |trace| && (trace[i].KilledPid? || trace[i].KilledChild?)
    ensures trace[i].pid in trace[i].seen.table
    ensures trace[i].KilledPid? ==>
      && trace[i].pid != cfg.selfPid
      && LockNames(cfg, trace[i].seen, trace[i].pid, trace[i].seen.table[trace[i].pid])
    ensures trace[i].KilledChild? ==>
      && trace[i].seen.table[trace[i].pid] == trace[i].start
      && Spawned(trace[i].handle, trace[i].pid, trace[i].start) in trace[..i]
      && SawExit(trace[i].handle) !in trace[..i]
  {
    assert Justified(cfg, trace[..i], trace[i]);
  }

  // The event before another one in a safe trace.
  lemma Previous(cfg: Config, trace: seq<Event>, i: nat)
    requires Safe(cfg, trace) && 0 < i < |trace|
    ensures Last(trace[..i]) == Some(trace[i - 1]) && trace[..i][..i - 1] == trace[..i - 1]
    ensures Justified(cfg, trace[..i - 1], trace[i - 1])
  {
    assert trace[..i][i - 1] == trace[i - 1];
  }

  // A router is taken to be healthy only when the address file was just read,
  // its endpoint was probed, and the answer says "ok"; its identity is that of
  // the file unless the answer gives another.
  lemma HealthIsAnswered(cfg: Config, trace: seq<Event>, i: nat)
    requires Safe(cfg, trace) && i < |trace| && trace[i].HealthOk?
    ensures i >= 2 && trace[i - 2].FileRead? && EndpointIn(cfg.version, trace[i - 2].file) == Ok(Some(trace[i].base))
    ensures trace[i - 1] == Answered(trace[i].base.addr, HealthProbe, Ok(trace[i].health)) && Positive(Ok(trace[i].health))
    ensures trace[i].endpoint == WithHealthIdentity(trace[i].base, trace[i].health)
  {
    assert Justified(cfg, trace[..i], trace[i]);
    Previous(cfg, trace, i);
    Previous(cfg, trace, i - 1);
  }

  // No router is found only where the address file was just read and is missing
  // or of no use, or its endpoint was asked and gave no positive answer, or
  // refused a connection.
  lemma LacksAreSeen(cfg: Config, trace: seq<Event>, i: nat)
    requires Safe(cfg, trace) && i < |trace| && trace[i].Lacking?
    ensures match trace[i].lack
      case NoFile => i >= 1 && trace[i - 1] == FileRead(Missing)
      case Unusable => i >= 1 && trace[i - 1].FileRead? && trace[i - 1].file.Decoded?
                       && ParseEndpoint(cfg.version, trace[i - 1].file.value) == None
      case NotHealthy(base, answer) =>
        && i >= 2 && trace[i - 2].FileRead? && EndpointIn(cfg.version, trace[i - 2].file) == Ok(Some(base))
        && trace[i - 1] == Answered(base.addr, HealthProbe, answer) && !Positive(answer)
      case NotReachable(base) =>
        && i >= 2 && trace[i - 2].FileRead? && EndpointIn(cfg.version, trace[i - 2].file) == Ok(Some(base))
        && trace[i - 1] == Connected(base.addr, false)
  {
    assert Justified(cfg, trace[..i], trace[i]);
    Previous(cfg, trace, i);
    if trace[i].lack.NotHealthy? || trace[i].lack.NotReachable? {
      Previous(cfg, trace, i - 1);
    }
  }

  // A process that is no child is signalled during a probe only when its
  // address gave no answer at all: a router that answered is left alone. At a
  // stop it is signalled only right after the deadline.
  lemma SignalsHaveReasons(cfg: Config, trace: seq<Event>, i: nat)
    requires Safe(cfg, trace) && i < |trace| && trace[i].KilledPid?
    ensures trace[i].why == Overdue ==> i >= 1 && trace[i - 1] == TimedOut
    ensures trace[i].why == Silent ==>
      && i >= 3 && trace[i - 2].Answered? && trace[i - 2].message == HealthProbe && trace[i - 2].answer.Err?
      && trace[i - 3].FileRead?
      && (match EndpointIn(cfg.version, trace[i - 3].file)
          case Ok(Some(base)) => base.pid == Some(trace[i].pid) && base.addr == trace[i - 2].addr
          case _ => false)
  {
    assert Justified(cfg, trace[..i], trace[i]);
    if trace[i].why != Starting {
      Previous(cfg, trace, i);
      if trace[i].why == Silent { LacksAreSeen(cfg, trace, i - 1); }
    }
  }

  // A vetted endpoint is the one the latest look at the address file found, and
  // it passed its test on what the system showed at that moment.
  lemma VettingsAreOfTheLatestLook(cfg: Config, trace: seq<Event>, i: nat)
    requires Safe(cfg, trace) && i < |trace| && trace[i].Vetted?
    ensures LookedAt(cfg, trace[..i], trace[i].endpoint)
    ensures var ep, seen := trace[i].endpoint, trace[i].seen;
      match trace[i].ground
      case LockIdentity => HasLockIdentity(cfg, ep, seen)
      case LiveChild(handle) =>
        && i > 0 && trace[i - 1] == SawRunning(handle)
        && ep.pid.Some? && OwnChild(trace[..i], seen, handle, ep.pid.value)
      case Fingerprint => HealthyNow(trace[..i], ep) && HasFingerprint(cfg, ep, seen)
  {
    assert Justified(cfg, trace[..i], trace[i]);
  }

  // An endpoint is adopted only right after it passed one of the three tests:
  // no address is trusted for its past.
  lemma AdoptionsAreVetted(cfg: Config, trace: seq<Event>, i: nat)
    requires Safe(cfg, trace) && i < |trace| && trace[i].Adopted?
    ensures i > 0 && trace[i - 1].Vetted? && trace[i - 1].endpoint == trace[i].endpoint
    ensures LookedAt(cfg, trace[..i - 1], trace[i].endpoint)
    ensures Passes(cfg, trace[..i - 1], trace[i].endpoint, trace[i - 1].ground, trace[i - 1].seen)
  {
    assert Justified(cfg, trace[..i], trace[i]);
    Previous(cfg, trace, i);
    VettingsAreOfTheLatestLook(cfg, trace, i - 1);
  }

  // Requests go only to addresses adopted earlier.
  lemma RequestsAreAdopted(cfg: Config, trace: seq<Event>, i: nat)
    requires Safe(cfg, trace) && i < |trace| && trace[i].Requested?
    ensures exists j ::
      && 0 < j < i && trace[j].Adopted? && trace[j].endpoint.addr == trace[i].addr
      && trace[j - 1].Vetted? && trace[j - 1].endpoint == trace[j].endpoint
      && Justified(cfg, trace[..j - 1], trace[j - 1])
  {
    assert Justified(cfg, trace[..i], trace[i]);
    var j :| 0 <= j < i && trace[..i][j].Adopted? && trace[..i][j].endpoint.addr == trace[i].addr;
    assert trace[j] == trace[..i][j];
    AdoptionsAreVetted(cfg, trace, j);
    Previous(cfg, trace, j);
  }
}
