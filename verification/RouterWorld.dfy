// The operating system around the gateway's router supervisor: a process table
// in which pids die and are reused, two files another program may rewrite at
// any time, sockets that answer or do not, and the children this gateway
// spawned. Every method first lets the rest of the system act.
module RouterWorld {
  import opened Wrappers
  import opened Json
  import opened Text
  import opened RouterLockRecord

  type JsonText = Json<string>

  // 20 s of polling every 200 ms, 10 s of polling every 100 ms: the deadline
  // may pass earlier, never later.
  const MAX_POLLS: nat := 100

  // What never changes while the gateway runs.
  datatype Config = Config(
    selfPid: nat,
    buildKind: string,
    home: string,             // compared as an opaque key
    version: string,
    allowFakeRouter: bool,
    routerBinFound: bool
  )

  datatype Endpoint = Endpoint(addr: string, pid: Option<nat>, start: Option<nat>)

  datatype EndpointFile = Missing | Unreadable(error: string) | Garbled(error: string) | Decoded(value: JsonText)

  datatype ChildState = Running | Exited | Reaped

  datatype Child = Child(pid: nat, start: nat, state: ChildState)

  datatype Waited = StillRunning | HasExited | WaitFailed

  // What the gateway saw at the moment of an event: the start time of every
  // live pid, and the text of the router lock file.
  datatype Evidence = Evidence(table: map<nat, nat>, lockText: Option<string>)

  datatype Ground = LockIdentity | LiveChild(handle: nat) | Fingerprint

  // What the gateway sends: a health probe, or a request under a number.
  datatype Message = HealthProbe | Numbered(id: nat)

  // Why a process that is no child of the gateway is signalled.
  datatype Why = Silent | Overdue | Starting

  // What the gateway did and what the system answered; and, from HealthOk on,
  // what the gateway concluded from that.
  datatype Event =
    | Spawned(handle: nat, pid: nat, start: nat)
    | SpawnFailed
    | SawRunning(handle: nat)
    | SawExit(handle: nat)
    | WaitFailure(handle: nat)
    | KilledChild(handle: nat, pid: nat, start: nat, delivered: bool, seen: Evidence)
    | KilledPid(pid: nat, why: Why, seen: Evidence)
    | FileRead(file: EndpointFile)
    | Connected(addr: string, accepts: bool)
    | Answered(addr: string, message: Message, answer: Result<JsonText, string>)
    | OwnerReported(owner: Option<string>)
    | RemovalTried(gone: bool)
    | TimedOut
    | HealthOk(endpoint: Endpoint, base: Endpoint, health: JsonText)
    | Vetted(endpoint: Endpoint, ground: Ground, seen: Evidence)
    | Denied(endpoint: Endpoint, ground: Ground, seen: Evidence)
    | Adopted(endpoint: Endpoint)
    | Requested(addr: string, id: nat)
    | NoneNamed(seen: Evidence)
    | Lacking(lack: Lack)
    | Refused(refusal: Refusal)

  // Why a look at the address file found no router.
  datatype Lack =
    | NoFile
    | Unusable
    | NotHealthy(base: Endpoint, answer: Result<JsonText, string>)
    | NotReachable(base: Endpoint)

  // Why an operation could not go on, where no answer of the system says it.
  datatype Refusal =
    | EndpointUnreadable(error: string)
    | NoRouterBinary
    | ChildNotKilled(handle: nat)
    | ChildAlreadyLost(handle: nat)

  // ---------------------------------------------------------------- files and answers

  // The address file's contents: refused when it is of another version or
  // names no address.
  function ParseEndpoint(version: string, v: JsonText): Option<Endpoint> {
    var found := AsStr(Get(v, "version"));
    if found.Some? && found.value != "" && found.value != version then None
    else
      var addr := AsStr(Get(v, "addr"));
      if addr.None? || Trim(addr.value) == "" then None
      else Some(Endpoint(addr.value, AsUnsigned(Get(v, "pid"), MAX_U32), AsUnsigned(Get(v, "process_start_time"), MAX_U64)))
  }

  // What a look at the address file gives.
  function EndpointIn(version: string, file: EndpointFile): Result<Option<Endpoint>, string> {
    match file
    case Missing => Ok(None)
    case Unreadable(error) => Err(error)
    case Garbled(error) => Err(error)
    case Decoded(v) => Ok(ParseEndpoint(version, v))
  }

  function Payload(response: JsonText, key: string): Option<JsonText> {
    match Get(response, "payload")
    case None => None
    case Some(payload) => Get(payload, key)
  }

  // A healthy answer's own pid and start time replace those of the file.
  function WithHealthIdentity(ep: Endpoint, response: JsonText): (r: Endpoint)
    ensures r.addr == ep.addr
  {
    var pid := AsUnsigned(Payload(response, "pid"), MAX_U32);
    var start := AsUnsigned(Payload(response, "process_start_time"), MAX_U64);
    Endpoint(ep.addr, if pid.Some? then pid else ep.pid, if start.Some? then start else ep.start)
  }

  // The gateway's own version, or none said.
  predicate OwnVersion(version: string, v: JsonText) {
    var found := AsStr(Get(v, "version"));
    found == None || found == Some("") || found == Some(version)
  }

  // The value has this number under the key, or no number that fits.
  ghost predicate HoldsNumber(v: JsonText, key: string, max: nat, n: Option<nat>) {
    match n
    case Some(k) => Get(v, key) == Some(Number(k)) && k <= max
    case None => forall k: nat :: k <= max ==> Get(v, key) != Some(Number(k))
  }

  // An address file names exactly this endpoint.
  ghost predicate NamesEndpoint(version: string, v: JsonText, ep: Endpoint) {
    && OwnVersion(version, v)
    && Get(v, "addr") == Some(Str(ep.addr)) && !AllBlank(ep.addr)
    && HoldsNumber(v, "pid", MAX_U32, ep.pid) && HoldsNumber(v, "process_start_time", MAX_U64, ep.start)
  }

  // The file gives the endpoint it names, and none exactly when its version is
  // another's or it has no address that is not blank.
  lemma EndpointIsTheNamedOne(version: string, v: JsonText)
    ensures match ParseEndpoint(version, v)
      case Some(ep) => NamesEndpoint(version, v, ep)
      case None => !OwnVersion(version, v) || forall addr :: Get(v, "addr") == Some(Str(addr)) ==> AllBlank(addr)
  {
    var addr := AsStr(Get(v, "addr"));
    if addr.Some? { TrimIsEmpty(addr.value); }
  }

  lemma NamedOneIsUnique(version: string, v: JsonText, a: Endpoint, b: Endpoint)
    requires NamesEndpoint(version, v, a) && NamesEndpoint(version, v, b)
    ensures a == b
  {
  }

  // A look gives an endpoint only when a decoded file names it, an error exactly
  // when the file cannot be read or decoded, and none otherwise.
  lemma LookGivesTheNamedOne(version: string, file: EndpointFile, ep: Endpoint)
    ensures EndpointIn(version, file) == Ok(Some(ep)) <==> file.Decoded? && NamesEndpoint(version, file.value, ep)
    ensures forall error :: EndpointIn(version, file) == Err(error) <==> file == Unreadable(error) || file == Garbled(error)
    ensures file.Missing? ==> EndpointIn(version, file) == Ok(None)
  {
    if file.Decoded? {
      var found := ParseEndpoint(version, file.value);
      EndpointIsTheNamedOne(version, file.value);
      if NamesEndpoint(version, file.value, ep) {
        TrimIsEmpty(ep.addr);
        NamedOneIsUnique(version, file.value, found.value, ep);
      }
    }
  }

  // The record a router publishes.
  function PublishedRecord(addr: string, version: string, pid: nat, start: Option<nat>): JsonText {
    Obj([ Field("addr", Str(addr)),
          Field("pid", Number(pid)),
          Field("process_start_time", if start.Some? then Number(start.value) else Null),
          Field("version", Str(version)) ])
  }

  lemma PublishedFields(addr: string, version: string, pid: nat, start: Option<nat>)
    ensures var v := PublishedRecord(addr, version, pid, start);
      && Get(v, "addr") == Some(Str(addr)) && Get(v, "pid") == Some(Number(pid)) && Get(v, "version") == Some(Str(version))
      && Get(v, "process_start_time") == Some(if start.Some? then Number(start.value) else Null)
  {
    var f := PublishedRecord(addr, version, pid, start).fields;
    assert |f[0].key| == 4 && |f[1].key| == 3 && |f[2].key| == 18 && |f[3].key| == 7;
    FieldAt(f, 1);
    FieldAt(f, 2);
    FieldAt(f, 3);
  }

  lemma {:induction false} FieldAt(fields: seq<Field<string>>, i: nat)
    requires i < |fields| && forall j :: 0 <= j < i ==> |fields[j].key| != |fields[i].key|
    ensures Lookup(fields, fields[i].key) == Some(fields[i].value)
  {
    if i > 0 {
      FieldAt(fields[1..], i - 1);
    }
  }

  // A gateway reads back the endpoint a router published, exactly when the
  // router is of its own version or of an unnamed one; an address is no blank.
  lemma EndpointRoundTrip(reader: string, addr: string, version: string, pid: nat, start: Option<nat>)
    requires pid <= MAX_U32 && (start.Some? ==> start.value <= MAX_U64) && !AllBlank(addr)
    ensures ParseEndpoint(reader, PublishedRecord(addr, version, pid, start)) ==
            if version == reader || version == "" then Some(Endpoint(addr, Some(pid), start)) else None
  {
    PublishedFields(addr, version, pid, start);
    TrimIsEmpty(addr);
  }

  // A healthy answer holds this number in its payload.
  ghost predicate AnswerHolds(response: JsonText, key: string, max: nat, n: nat) {
    exists payload :: Get(response, "payload") == Some(payload) && Get(payload, key) == Some(Number(n)) && n <= max
  }

  // The answer's numbers replace those of the file, each where it has one.
  ghost predicate TakesNumber(response: JsonText, key: string, max: nat, before: Option<nat>, after: Option<nat>) {
    || (after.Some? && AnswerHolds(response, key, max, after.value))
    || (after == before && forall n: nat :: !AnswerHolds(response, key, max, n))
  }

  lemma HealthIdentityIsTheAnswers(ep: Endpoint, response: JsonText)
    ensures var r := WithHealthIdentity(ep, response);
      && r.addr == ep.addr
      && TakesNumber(response, "pid", MAX_U32, ep.pid, r.pid)
      && TakesNumber(response, "process_start_time", MAX_U64, ep.start, r.start)
  {
    AnswersNumber(response, "pid", MAX_U32);
    AnswersNumber(response, "process_start_time", MAX_U64);
  }

  lemma AnswersNumber(response: JsonText, key: string, max: nat)
    ensures match AsUnsigned(Payload(response, key), max)
      case Some(n) => AnswerHolds(response, key, max, n)
      case None => forall n: nat :: !AnswerHolds(response, key, max, n)
  {
    var payload := Get(response, "payload");
    if payload.Some? && AsUnsigned(Payload(response, key), max).Some? {
      assert Get(payload.value, key) == Some(Number(AsUnsigned(Payload(response, key), max).value));
    }
  }

  // An answer that says "ok": true.
  predicate Positive(answer: Result<JsonText, string>) {
    answer.Ok? && AsBool(Get(answer.value, "ok")) == Some(true)
  }

  lemma PositiveSaysOk(answer: Result<JsonText, string>)
    ensures Positive(answer) <==> answer.Ok? && Get(answer.value, "ok") == Some(Bool(true))
  {
  }

  // ---------------------------------------------------------------- what may happen

  function LockRecordSeen(seen: Evidence): Option<LockRecord> {
    if seen.lockText.Some? then Some(RecordOf(seen.lockText.value)) else None
  }

  // The lock file is a router's, of this build and this home, and names exactly
  // this process.
  predicate LockNames(cfg: Config, seen: Evidence, pid: nat, start: nat) {
    LockRecordSeen(seen) == Some(LockRecord(Some(pid), Some(start), Some("router"), Some(cfg.buildKind), Some(cfg.home)))
  }

  predicate IsLive(seen: Evidence, pid: nat, start: nat) { pid in seen.table && seen.table[pid] == start }

  // A child this gateway spawned and has not reaped, so that its pid is still its own.
  ghost predicate OwnChild(before: seq<Event>, seen: Evidence, handle: nat, pid: nat) {
    exists start :: Spawned(handle, pid, start) in before && SawExit(handle) !in before && IsLive(seen, pid, start)
  }

  ghost predicate AdoptedBefore(before: seq<Event>, addr: string) {
    exists i :: 0 <= i < |before| && before[i].Adopted? && before[i].endpoint.addr == addr
  }

  // The last event vets the endpoint.
  predicate LastVets(before: seq<Event>, ep: Endpoint) {
    before != [] && before[|before| - 1].Vetted? && before[|before| - 1].endpoint == ep
  }

  // No live process but the gateway is named by our router's lock file.
  ghost predicate NoneToKill(cfg: Config, seen: Evidence) {
    forall pid: nat, start: nat :: IsLive(seen, pid, start) && LockNames(cfg, seen, pid, start) ==> pid == cfg.selfPid
  }

  // The endpoint's process is the one our router's lock file names.
  predicate HasLockIdentity(cfg: Config, ep: Endpoint, seen: Evidence) {
    && ep.pid.Some? && ep.start.Some?
    && IsLive(seen, ep.pid.value, ep.start.value) && LockNames(cfg, seen, ep.pid.value, ep.start.value)
  }

  // The endpoint's process is alive with the start time it claims.
  predicate HasFingerprint(cfg: Config, ep: Endpoint, seen: Evidence) {
    && ep.pid.Some? && ep.start.Some? && IsLive(seen, ep.pid.value, ep.start.value)
    && (ep.pid.value != cfg.selfPid || cfg.allowFakeRouter)
  }

  function Last(before: seq<Event>): Option<Event> {
    if before == [] then None else Some(before[|before| - 1])
  }

  // The last event read an address file that gives this endpoint.
  predicate JustGiven(cfg: Config, before: seq<Event>, base: Endpoint) {
    before != [] && Last(before).value.FileRead?
    && EndpointIn(cfg.version, Last(before).value.file) == Ok(Some(base))
  }

  // The last two events read an address file and asked its endpoint.
  predicate JustProbed(cfg: Config, before: seq<Event>, base: Endpoint, answer: Result<JsonText, string>) {
    && before != [] && JustGiven(cfg, before[..|before| - 1], base)
    && Last(before) == Some(Answered(base.addr, HealthProbe, answer))
  }

  // The last two events read an address file and failed to connect to its endpoint.
  predicate JustUnreachable(cfg: Config, before: seq<Event>, base: Endpoint) {
    && before != [] && JustGiven(cfg, before[..|before| - 1], base)
    && Last(before) == Some(Connected(base.addr, false))
  }

  // Event i found the endpoint: it answered its health probe, or accepted a
  // connection right after the address file gave it.
  predicate FoundAt(cfg: Config, before: seq<Event>, i: nat, ep: Endpoint)
    requires i < |before|
  {
    HealthyAt(before, i, ep) || (before[i] == Connected(ep.addr, true) && JustGiven(cfg, before[..i], ep))
  }

  predicate HealthyAt(before: seq<Event>, i: nat, ep: Endpoint)
    requires i < |before|
  {
    before[i].HealthOk? && before[i].endpoint == ep
  }

  predicate NoReadAfter(before: seq<Event>, i: nat) { forall j :: i < j < |before| ==> !before[j].FileRead? }

  // The endpoint is what the latest look at the address file found.
  ghost predicate LookedAt(cfg: Config, before: seq<Event>, ep: Endpoint) {
    exists i: nat :: i < |before| && FoundAt(cfg, before, i, ep) && NoReadAfter(before, i)
  }

  ghost predicate HealthyNow(before: seq<Event>, ep: Endpoint) {
    exists i: nat :: i < |before| && HealthyAt(before, i, ep) && NoReadAfter(before, i)
  }

  predicate LackSeen(cfg: Config, before: seq<Event>, lack: Lack) {
    match lack
    case NoFile => Last(before) == Some(FileRead(Missing))
    case Unusable =>
      before != [] && Last(before).value.FileRead? && Last(before).value.file.Decoded?
      && EndpointIn(cfg.version, Last(before).value.file) == Ok(None)
    case NotHealthy(base, answer) => JustProbed(cfg, before, base, answer) && !Positive(answer)
    case NotReachable(base) => JustUnreachable(cfg, before, base)
  }

  predicate RefusalSeen(cfg: Config, before: seq<Event>, refusal: Refusal) {
    match refusal
    case EndpointUnreadable(error) =>
      Last(before) == Some(FileRead(Unreadable(error))) || Last(before) == Some(FileRead(Garbled(error)))
    case NoRouterBinary => !cfg.routerBinFound
    case ChildNotKilled(handle) =>
      before != [] && var e := Last(before).value;
      e == WaitFailure(handle) || (e.KilledChild? && e.handle == handle && !e.delivered)
    case ChildAlreadyLost(handle) => SawExit(handle) in before || WaitFailure(handle) in before
  }

  // What allows a process that is no child to be signalled: its own router file
  // was just found to give an address that does not answer, or a deadline has
  // just passed, or a router is about to be started.
  predicate MaySignal(before: seq<Event>, pid: nat, why: Why) {
    match why
    case Silent =>
      before != [] && var e := Last(before).value;
      e.Lacking? && e.lack.NotHealthy? && e.lack.answer.Err? && e.lack.base.pid == Some(pid)
    case Overdue => Last(before) == Some(TimedOut)
    case Starting => true
  }

  // The test of one ground, on what was seen.
  ghost predicate Passes(cfg: Config, before: seq<Event>, ep: Endpoint, ground: Ground, seen: Evidence) {
    match ground
    case LockIdentity => HasLockIdentity(cfg, ep, seen)
    case LiveChild(handle) =>
      ep.pid.Some? && OwnChild(before, seen, handle, ep.pid.value) && Last(before) == Some(SawRunning(handle))
    case Fingerprint => HealthyNow(before, ep) && HasFingerprint(cfg, ep, seen)
  }

  // What is sent: a probe of an address just read from the address file, or a
  // request just recorded.
  predicate MaySend(cfg: Config, before: seq<Event>, addr: string, message: Message) {
    match message
    case HealthProbe =>
      before != [] && Last(before).value.FileRead? &&
      var given := EndpointIn(cfg.version, Last(before).value.file);
      given.Ok? && given.value.Some? && given.value.value.addr == addr
    case Numbered(id) => Last(before) == Some(Requested(addr, id))
  }

  // The safety condition of one event, given those before it.
  ghost predicate Justified(cfg: Config, before: seq<Event>, e: Event) {
    match e
    case KilledPid(pid, why, seen) =>
      pid != cfg.selfPid && (exists start :: IsLive(seen, pid, start) && LockNames(cfg, seen, pid, start))
      && MaySignal(before, pid, why)
    case KilledChild(handle, pid, start, _, seen) =>
      Spawned(handle, pid, start) in before && SawExit(handle) !in before && IsLive(seen, pid, start)
    case Answered(addr, message, _) => MaySend(cfg, before, addr, message)
    case HealthOk(ep, base, health) =>
      JustProbed(cfg, before, base, Ok(health)) && Positive(Ok(health)) && ep == WithHealthIdentity(base, health)
    case Vetted(ep, ground, seen) => LookedAt(cfg, before, ep) && Passes(cfg, before, ep, ground, seen)
    case Denied(ep, ground, seen) =>
      LookedAt(cfg, before, ep) &&
      (match ground
       case LockIdentity => !HasLockIdentity(cfg, ep, seen)
       case LiveChild(_) => false
       case Fingerprint => HealthyNow(before, ep) && !HasFingerprint(cfg, ep, seen))
    case Adopted(ep) => LastVets(before, ep)
    case Requested(addr, _) => AdoptedBefore(before, addr)
    case NoneNamed(seen) => NoneToKill(cfg, seen)
    case Lacking(lack) => LackSeen(cfg, before, lack)
    case Refused(refusal) => RefusalSeen(cfg, before, refusal)
    case _ => true
  }

  // A conclusion of the gateway, drawn on what the system shows now.
  predicate IsNote(e: Event, now: Evidence) {
    match e
    case Vetted(_, _, seen) => seen == now
    case Denied(_, _, seen) => seen == now
    case NoneNamed(seen) => seen == now
    case HealthOk(_, _, _) => true
    case Adopted(_) => true
    case Requested(_, _) => true
    case Lacking(_) => true
    case Refused(_) => true
    case _ => false
  }

  ghost predicate Safe(cfg: Config, trace: seq<Event>) {
    forall i {:trigger Justified(cfg, trace[..i], trace[i])} :: 0 <= i < |trace| ==> Justified(cfg, trace[..i], trace[i])
  }

  lemma SafeSnoc(cfg: Config, trace: seq<Event>, e: Event)
    requires Safe(cfg, trace) && Justified(cfg, trace, e)
    ensures Safe(cfg, trace + [e])
  {
    var t := trace + [e];
    forall i | 0 <= i < |t| ensures Justified(cfg, t[..i], t[i]) {
      assert t[..i] == trace[..i];
    }
  }

  // Starting a process or signalling one.
  predicate IsAct(e: Event) { e.Spawned? || e.KilledChild? || e.KilledPid? }

  // The later trace adds events to the earlier one, none of them a spawn.
  ghost predicate Quiet(earlier: seq<Event>, later: seq<Event>) {
    earlier <= later && forall i :: |earlier| <= i < |later| ==> !later[i].Spawned?
  }

  // The later trace adds events to the earlier one, none of them an act.
  ghost predicate Passive(earlier: seq<Event>, later: seq<Event>) {
    earlier <= later && forall i :: |earlier| <= i < |later| ==> !IsAct(later[i])
  }

  // Nor a look at the address file.
  ghost predicate Aside(earlier: seq<Event>, later: seq<Event>) {
    earlier <= later && forall i :: |earlier| <= i < |later| ==> !IsAct(later[i]) && !later[i].FileRead?
  }

  // The only acts added signal a process whose address did not answer.
  ghost predicate Probing(earlier: seq<Event>, later: seq<Event>) {
    earlier <= later && forall i :: |earlier| <= i < |later| && IsAct(later[i]) ==> later[i].KilledPid? && later[i].why == Silent
  }

  // The same children under the same pids, whatever has become of them.
  ghost predicate SameChildren(earlier: seq<Child>, later: seq<Child>) {
    && |earlier| == |later|
    && forall h :: 0 <= h < |earlier| ==> later[h].pid == earlier[h].pid && later[h].start == earlier[h].start
  }

  function WaitEvent(handle: nat, w: Waited): Event {
    match w
    case StillRunning => SawRunning(handle)
    case HasExited => SawExit(handle)
    case WaitFailed => WaitFailure(handle)
  }

  // ---------------------------------------------------------------- the system

  class World {
    const cfg: Config
    var table: map<nat, nat>
    var lockText: Option<string>
    var endpointFile: EndpointFile
    var children: seq<Child>
    ghost var trace: seq<Event>

    ghost predicate Valid()
      reads this
    {
      && Safe(cfg, trace)
      && ChildrenRecorded(children, table, trace)
    }

    // Every child handle was spawned once; its pid stays its own until reaped.
    static ghost predicate ChildrenRecorded(children: seq<Child>, table: map<nat, nat>, trace: seq<Event>) {
      && (forall h :: 0 <= h < |children| ==>
            && Spawned(h, children[h].pid, children[h].start) in trace
            && (SawExit(h) in trace ==> children[h].state == Reaped)
            && (children[h].state != Reaped ==> children[h].pid in table && table[children[h].pid] == children[h].start))
      && (forall i :: 0 <= i < |trace| && trace[i].SawExit? ==> trace[i].handle < |children|)
    }

    constructor (cfg: Config, table: map<nat, nat>, lockText: Option<string>, endpointFile: EndpointFile)
      ensures Valid() && this.cfg == cfg && children == [] && trace == []
    {
      this.cfg := cfg;
      this.table := table;
      this.lockText := lockText;
      this.endpointFile := endpointFile;
      children := [];
      trace := [];
    }

    function Seen(): Evidence
      reads this
    {
      Evidence(table, lockText)
    }

    // Anything may happen outside: processes start, die and take over freed
    // pids, and both files change. A child not yet reaped keeps its pid.
    method Interfere()
      requires Valid()
      modifies `table, `lockText, `endpointFile, `children
      ensures Valid() && SameChildren(old(children), children)
    {
      var newTable: map<nat, nat> := *;
      if forall h :: 0 <= h < |children| && children[h].state != Reaped ==>
           children[h].pid in newTable && newTable[children[h].pid] == children[h].start
      {
        table := newTable;
      }
      lockText := *;
      endpointFile := *;
      var newChildren: seq<Child> := *;
      if |newChildren| == |children|
         && forall h :: 0 <= h < |children| ==>
              newChildren[h] == children[h]
              || (children[h].state == Running && newChildren[h] == children[h].(state := Exited))
      {
        children := newChildren;
      }
    }

    // Adds a conclusion of the gateway's; only the system adds its own answers.
    ghost method Note(e: Event)
      requires Valid() && Justified(cfg, trace, e) && IsNote(e, Seen())
      modifies `trace
      ensures Valid() && trace == old(trace) + [e]
    {
      Log(e);
    }

    ghost method Log(e: Event)
      requires Valid() && Justified(cfg, trace, e) && !e.Spawned? && !e.SawExit?
      modifies `trace
      ensures Valid() && trace == old(trace) + [e]
    {
      SafeSnoc(cfg, trace, e);
      trace := trace + [e];
    }

    // Command::spawn: a fresh process under a pid that was free.
    method Spawn() returns (handle: Option<nat>)
      requires Valid()
      modifies this
      ensures Valid()
      ensures handle.None? ==> children == old(children) && trace == old(trace) + [SpawnFailed]
      ensures handle.Some? ==>
        && handle.value == old(|children|) && |children| == old(|children|) + 1
        && children[..handle.value] == old(children)
        && children[handle.value].state == Running
        && trace == old(trace) + [Spawned(handle.value, children[handle.value].pid, children[handle.value].start)]
    {
      var pid: nat, start: nat, works: bool := *, *, *;
      if !works || pid in table {
        Log(SpawnFailed);
        return None;
      }
      SafeSnoc(cfg, trace, Spawned(|children|, pid, start));
      trace := trace + [Spawned(|children|, pid, start)];
      table := table[pid := start];
      handle := Some(|children|);
      children := children + [Child(pid, start, Running)];
    }

    // Child::try_wait: a reported exit reaps the child.
    method TryWait(handle: nat) returns (w: Waited)
      requires Valid() && handle < |children|
      modifies this
      ensures Valid() && SameChildren(old(children), children)
      ensures trace == old(trace) + [WaitEvent(handle, w)]
      ensures w == StillRunning ==> children[handle].state != Reaped
    {
      Interfere();
      var fails: bool := *;
      if fails {
        w := WaitFailed;
        Log(WaitFailure(handle));
      } else if children[handle].state == Running {
        w := StillRunning;
        Log(SawRunning(handle));
      } else {
        w := HasExited;
        Reap(handle);
      }
    }

    method Reap(handle: nat)
      requires Valid() && handle < |children|
      modifies `children, `trace
      ensures Valid() && SameChildren(old(children), children) && trace == old(trace) + [SawExit(handle)]
    {
      children := children[handle := children[handle].(state := Reaped)];
      SafeSnoc(cfg, trace, SawExit(handle));
      trace := trace + [SawExit(handle)];
    }

    // Child::kill on a child that has just been seen running.
    method KillChild(handle: nat) returns (ok: bool)
      requires Valid() && handle < |children| && children[handle].state != Reaped
      modifies `children, `trace
      ensures Valid() && SameChildren(old(children), children) && children == old(children)
      ensures trace == old(trace) + [KilledChild(handle, children[handle].pid, children[handle].start, ok, old(Seen()))]
    {
      ok := *;
      assert SawExit(handle) !in trace;
      Log(KilledChild(handle, children[handle].pid, children[handle].start, ok, Seen()));
    }

    // Child::wait, whose failure is ignored.
    method Wait(handle: nat)
      requires Valid() && handle < |children|
      modifies this
      ensures Valid() && SameChildren(old(children), children)
      ensures trace == old(trace) || trace == old(trace) + [SawExit(handle)]
    {
      Interfere();
      var fails: bool := *;
      if !fails {
        Reap(handle);
      }
    }

    // Process::kill through the process table, at the moment it was looked up.
    method KillPid(pid: nat, ghost why: Why) returns (ok: bool)
      requires Valid() && Justified(cfg, trace, KilledPid(pid, why, Seen()))
      modifies `trace
      ensures Valid() && trace == old(trace) + [KilledPid(pid, why, Seen())]
    {
      Log(KilledPid(pid, why, Seen()));
      ok := *;
    }

    // std::fs::read_to_string and JSON decoding of the address file.
    method ReadEndpointFile() returns (file: EndpointFile)
      requires Valid()
      modifies this
      ensures Valid() && SameChildren(old(children), children)
      ensures file == endpointFile && trace == old(trace) + [FileRead(file)]
    {
      Interfere();
      file := endpointFile;
      Log(FileRead(file));
    }

    // Sockets, requests and deadlines: any answer is possible. An address that
    // is none of a socket accepts no connection.
    method Connects(addr: string) returns (accepts: bool)
      requires Valid()
      modifies this
      ensures Valid() && SameChildren(old(children), children)
      ensures trace == old(trace) + [Connected(addr, accepts)]
    {
      Interfere();
      accepts := *;
      Log(Connected(addr, accepts));
    }

    method Exchange(addr: string, message: Message) returns (r: Result<JsonText, string>)
      requires Valid() && MaySend(cfg, trace, addr, message)
      modifies this
      ensures Valid() && SameChildren(old(children), children)
      ensures trace == old(trace) + [Answered(addr, message, r)]
    {
      Interfere();
      r := *;
      Log(Answered(addr, message, r));
    }

    // Whether the time is over; after MAX_POLLS pauses it is.
    method DeadlinePassed(polls: nat) returns (passed: bool)
      requires Valid()
      modifies this
      ensures Valid() && SameChildren(old(children), children)
      ensures trace == if passed then old(trace) + [TimedOut] else old(trace)
      ensures polls >= MAX_POLLS ==> passed
    {
      Interfere();
      passed := *;
      passed := passed || polls >= MAX_POLLS;
      if passed {
        Log(TimedOut);
      }
    }

    method UnreachableOwnerMessage() returns (owner: Option<string>)
      requires Valid()
      modifies this
      ensures Valid() && SameChildren(old(children), children)
      ensures trace == old(trace) + [OwnerReported(owner)]
    {
      Interfere();
      owner := *;
      Log(OwnerReported(owner));
    }

    // std::fs::remove_file, whose failure is ignored.
    method RemoveEndpointFile()
      requires Valid()
      modifies this
      ensures Valid() && SameChildren(old(children), children)
      ensures trace == old(trace) + [RemovalTried(endpointFile == Missing)]
    {
      Interfere();
      var works: bool := *;
      if works {
        endpointFile := Missing;
      }
      Log(RemovalTried(endpointFile == Missing));
    }
  }
}
