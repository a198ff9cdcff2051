/** Who owns the blocks of an asynchronous request: the handler, the result and the
    parameter are allocated by the API function, handed to the D-Bus client, and freed
    by the setup callback, by the destroy callback, or by the function when it fails.

    The client call is modelled by its contract. When it returns false, neither the setup
    nor the destroy callback has run. When it returns true, setup has run once; later at most
    one reply arrives, and then the destroy callback runs exactly once. */
module RequestOwnership {
  import opened Basics

  // ----- the heap -----

  /** Blocks are numbered in the order of their allocation and never reused. */
  datatype Heap = Heap(live: set<nat>, next: nat)

  function Malloc(h: Heap): Heap {
    Heap(h.live + {h.next}, h.next + 1)
  }

  function FreeAll(h: Heap, blocks: set<nat>): Heap
    requires blocks <= h.live
  {
    h.(live := h.live - blocks)
  }

  ghost predicate InRange(h: Heap) {
    forall b | b in h.live :: b < h.next
  }

  // ----- requests -----

  datatype Kind = Dial | PlayDtmf | ChangePin | OpenLogicalChannel | SendMessage | SendDataMessage | OemRequestRaw
  datatype Role = Param | FirstText | SecondText | Result | Handler

  /** The allocations of an API function, in order; without an optional block it carries on. */
  datatype Plan = Done | Alloc(role: Role, required: bool, rest: Plan)

  function Order(kind: Kind): Plan {
    match kind
    case Dial | PlayDtmf | ChangePin | OpenLogicalChannel =>
      Alloc(Param, true, Alloc(Result, true, Alloc(Handler, true, Done)))
    case SendMessage | SendDataMessage =>
      Alloc(Param, true, Alloc(FirstText, false, Alloc(SecondText, false, Alloc(Result, true, Alloc(Handler, true, Done)))))
    case OemRequestRaw =>
      Alloc(Handler, true, Alloc(Result, true, Alloc(Param, true, Done)))
  }

  /** In one discipline the setup callback frees the parameter, in the other the destroy
      callback frees all three blocks. */
  predicate SetupFrees(kind: Kind) {
    kind != ChangePin
  }

  /** The blocks a request holds, by role. */
  datatype Got = Got(handler: Option<nat>, result: Option<nat>, param: Option<nat>, first: Option<nat>, second: Option<nat>) {
    function Data(): set<nat> {
      One(param) + One(first) + One(second)
    }

    function Blocks(): set<nat> {
      One(handler) + One(result) + Data()
    }

    function At(role: Role): Option<nat> {
      match role
      case Handler => handler
      case Result => result
      case Param => param
      case FirstText => first
      case SecondText => second
    }

    function With(role: Role, b: nat): Got {
      match role
      case Handler => this.(handler := Some(b))
      case Result => this.(result := Some(b))
      case Param => this.(param := Some(b))
      case FirstText => this.(first := Some(b))
      case SecondText => this.(second := Some(b))
    }

    predicate Complete() {
      handler.Some? && result.Some? && param.Some?
    }

    predicate NoTexts() {
      first == second == None
    }
  }

  function One(b: Option<nat>): set<nat> {
    if b.Some? then {b.value} else {}
  }

  const NOTHING := Got(None, None, None, None, None)

  function Roles(plan: Plan): set<Role> {
    if plan.Done? then {} else {plan.role} + Roles(plan.rest)
  }

  function Needed(plan: Plan): set<Role> {
    if plan.Done? then {} else (if plan.required then {plan.role} else {}) + Needed(plan.rest)
  }

  predicate Proper(plan: Plan) {
    plan.Done? || (plan.role !in Roles(plan.rest) && Proper(plan.rest))
  }

  lemma OrderFacts(kind: Kind)
    ensures Proper(Order(kind)) && Needed(Order(kind)) == {Param, Result, Handler}
    ensures !SetupFrees(kind) ==> Roles(Order(kind)) == {Param, Result, Handler}
  {
  }

  predicate Differ(a: Option<nat>, b: Option<nat>) {
    a.Some? ==> a != b
  }

  ghost predicate Separate(g: Got) {
    && Differ(g.handler, g.result) && Differ(g.handler, g.param) && Differ(g.handler, g.first) && Differ(g.handler, g.second)
    && Differ(g.result, g.param) && Differ(g.result, g.first) && Differ(g.result, g.second)
    && Differ(g.param, g.first) && Differ(g.param, g.second)
    && Differ(g.first, g.second)
  }

  lemma WithKeeps(g: Got, role: Role, b: nat)
    requires Separate(g) && g.At(role) == None && b !in g.Blocks()
    ensures Separate(g.With(role, b)) && g.With(role, b).Blocks() == g.Blocks() + {b}
    ensures forall r :: g.With(role, b).At(r) == if r == role then Some(b) else g.At(r)
  {
  }

  /** Allocates in order until a required allocation fails; memory holds the roles whose
      allocation would succeed. Also returns the role that failed, if any. */
  function Grab(h: Heap, plan: Plan, memory: set<Role>): (r: (Heap, Got, Option<Role>))
    requires Proper(plan)
    ensures r.0.live == h.live + r.1.Blocks() && h.next <= r.0.next
    ensures forall b :: b in r.1.Blocks() <==> h.next <= b < r.0.next
    ensures Separate(r.1)
    ensures forall role :: r.1.At(role).Some? ==> role in Roles(plan)
    decreases plan
  {
    if plan.Done? then (h, NOTHING, None)
    else if plan.role in memory then
      var (h', got, failed) := Grab(Malloc(h), plan.rest, memory);
      WithKeeps(got, plan.role, h.next);
      (h', got.With(plan.role, h.next), failed)
    else if plan.required then (h, NOTHING, Some(plan.role))
    else Grab(h, plan.rest, memory)
  }

  /** Without a failure every required role got its block. */
  lemma {:induction false} GrabNeeded(h: Heap, plan: Plan, memory: set<Role>)
    requires Proper(plan)
    ensures Grab(h, plan, memory).2 == None ==>
      forall role :: role in Needed(plan) ==> Grab(h, plan, memory).1.At(role).Some?
    decreases plan
  {
    if plan.Alloc? {
      if plan.role in memory {
        GrabNeeded(Malloc(h), plan.rest, memory);
        WithKeeps(Grab(Malloc(h), plan.rest, memory).1, plan.role, h.next);
      } else if !plan.required {
        GrabNeeded(h, plan.rest, memory);
      }
    }
  }

  // ----- requests in flight -----

  /** `ar->data`: an owned parameter, one that setup has freed, or a pointer into a reply. */
  datatype Data = Own(block: nat) | Dangling | External

  datatype Flight = Flight(handler: nat, result: nat, data: Data, kind: Kind, hasCallback: bool, status: Option<int>, replied: bool)

  function Owned(f: Flight): set<nat> {
    {f.handler, f.result} + if f.data.Own? then {f.data.block} else {}
  }

  datatype Call = Call(id: nat, status: Option<int>)

  /** Requests that were accepted get an id; flights holds those not yet destroyed. */
  datatype System = System(heap: Heap, flights: map<nat, Flight>, nextId: nat, calls: seq<Call>)

  function Errno(kind: Kind, failed: Role): int {
    if kind == SendMessage && failed == Param then -EINVAL else -ENOMEM
  }

  function GrabFor(h: Heap, kind: Kind, memory: set<Role>): (r: (Heap, Got, Option<Role>))
    ensures Grabbed(h, r.0, r.1)
    ensures r.2 == None ==> r.1.Complete()
    ensures !SetupFrees(kind) ==> r.1.NoTexts()
  {
    OrderFacts(kind);
    var r := Grab(h, Order(kind), memory);
    GrabNeeded(h, Order(kind), memory);
    GotFacts(r.1, Order(kind), r.2);
    r
  }

  lemma GotFacts(g: Got, plan: Plan, failed: Option<Role>)
    requires forall role :: g.At(role).Some? ==> role in Roles(plan)
    requires failed == None ==> forall role :: role in Needed(plan) ==> g.At(role).Some?
    ensures failed == None && Needed(plan) == {Param, Result, Handler} ==> g.Complete()
    ensures Roles(plan) == {Param, Result, Handler} ==> g.NoTexts()
  {
    assert g.At(Handler) == g.handler && g.At(Result) == g.result && g.At(Param) == g.param;
    assert g.At(FirstText) == g.first && g.At(SecondText) == g.second;
  }

  /** What an allocation phase leaves: h is h0 with the blocks of got on top. */
  ghost predicate Grabbed(h0: Heap, h: Heap, got: Got) {
    && h.live == h0.live + got.Blocks() && h0.next <= h.next
    && (forall b :: b in got.Blocks() <==> h0.next <= b < h.next)
    && Separate(got)
  }

  /** An API call. check is 0, or the negative error that its argument and proxy checks
      return; memory tells which allocations succeed; accepted is the client's answer. */
  function Submit(s: System, kind: Kind, check: int, memory: set<Role>, accepted: bool, hasCallback: bool): (r: (System, int))
    requires check <= 0
  {
    if check < 0 then (s, check)
    else
      var (h, got, failed) := GrabFor(s.heap, kind, memory);
      Finish(s, h, got, failed, kind, accepted, hasCallback)
  }

  /** What follows the allocations. */
  function Finish(s: System, h: Heap, got: Got, failed: Option<Role>, kind: Kind, accepted: bool, hasCallback: bool): (r: (System, int))
    requires got.Blocks() <= h.live && (failed == None ==> got.Complete())
    ensures r.0.calls == s.calls && r.1 <= OK
    ensures r.1 < OK ==> r.0.flights == s.flights && r.0.nextId == s.nextId
    ensures r.1 == OK ==> r.0.flights.Keys == s.flights.Keys + {s.nextId} && r.0.nextId == s.nextId + 1
  {
    if failed.Some? then (s.(heap := FreeAll(h, got.Blocks())), Errno(kind, failed.value))
    else if !accepted then (s.(heap := FreeAll(h, got.Blocks())), -EINVAL)
    else (Accepted(s, h, got, kind, hasCallback), OK)
  }

  /** The setup callback runs and the request is in flight. */
  function Accepted(s: System, h: Heap, got: Got, kind: Kind, hasCallback: bool): System
    requires got.Complete() && got.Data() <= h.live
  {
    var data := if SetupFrees(kind) then Dangling else Own(got.param.value);
    var f := Flight(got.handler.value, got.result.value, data, kind, hasCallback, None, false);
    System(if SetupFrees(kind) then FreeAll(h, got.Data()) else h, s.flights[s.nextId := f], s.nextId + 1, s.calls)
  }

  datatype ReplyMessage = BusError | NoBody | PathBody | OtherBody

  /** The status a reply callback leaves, and whether it points `ar->data` into the reply. */
  function Outcome(kind: Kind, message: ReplyMessage, status: Option<int>): (Option<int>, bool) {
    match kind
    case PlayDtmf | ChangePin => (Some(if message == BusError then ERROR else OK), false)
    case OpenLogicalChannel => (Some(if message in {BusError, NoBody} then ERROR else OK), false)
    case OemRequestRaw => (Some(if message in {BusError, NoBody} then ERROR else OK), message !in {BusError, NoBody})
    case Dial | SendMessage | SendDataMessage =>
      match message
      case BusError | NoBody => (Some(ERROR), false)
      case PathBody => (Some(OK), true)
      case OtherBody => (status, false)
  }

  function Deliver(s: System, id: nat, message: ReplyMessage): System
    requires id in s.flights
  {
    var f := s.flights[id];
    if !f.hasCallback then s.(flights := s.flights[id := f.(replied := true)])
    else
      var (status, external) := Outcome(f.kind, message, f.status);
      var f' := f.(status := status, data := if external then External else f.data, replied := true);
      s.(flights := s.flights[id := f'], calls := s.calls + [Call(id, status)])
  }

  function Destroy(s: System, id: nat): System
    requires id in s.flights && Owned(s.flights[id]) <= s.heap.live
  {
    s.(heap := FreeAll(s.heap, Owned(s.flights[id])), flights := s.flights - {id})
  }

  // ----- runs -----

  datatype Event =
    | SubmitEvent(kind: Kind, check: int, memory: set<Role>, accepted: bool, hasCallback: bool)
    | ReplyEvent(id: nat, message: ReplyMessage)
    | DestroyEvent(id: nat)

  /** What the client contract allows next: a reply and a destroy only for a request in
      flight, and no second reply. */
  ghost predicate Allowed(s: System, e: Event) {
    match e
    case SubmitEvent(_, check, _, _, _) => check <= 0
    case ReplyEvent(id, _) => id in s.flights && !s.flights[id].replied
    case DestroyEvent(id) => id in s.flights
  }

  function CallsTo(calls: seq<Call>, id: nat): nat {
    if calls == [] then 0
    else CallsTo(calls[..|calls| - 1], id) + if calls[|calls| - 1].id == id then 1 else 0
  }

  ghost predicate SoundFlight(f: Flight) {
    && f.handler != f.result
    && (f.data.Own? <==> !SetupFrees(f.kind))
    && (f.data.Own? ==> f.data.block !in {f.handler, f.result})
  }

  ghost function AllOwned(flights: map<nat, Flight>): set<nat> {
    set id, b | id in flights && b in Owned(flights[id]) :: b
  }

  ghost predicate Apart(flights: map<nat, Flight>) {
    forall i, j, b | i in flights && j in flights && b in Owned(flights[i]) && b in Owned(flights[j]) :: i == j
  }

  ghost predicate Numbered(flights: map<nat, Flight>, nextId: nat) {
    forall id | id in flights :: id < nextId && SoundFlight(flights[id])
  }

  /** base is what was on the heap before; everything else live belongs to exactly one
      request in flight. */
  ghost predicate Sound(s: System, base: set<nat>) {
    && InRange(s.heap)
    && Numbered(s.flights, s.nextId) && Apart(s.flights)
    && base !! AllOwned(s.flights)
    && s.heap.live == base + AllOwned(s.flights)
  }

  /** At most one callback per accepted request, and none before it was submitted. */
  ghost predicate CalledOnce(s: System) {
    && (forall id: nat :: CallsTo(s.calls, id) <= 1)
    && (forall id: nat | id >= s.nextId :: CallsTo(s.calls, id) == 0)
    && (forall id | id in s.flights :: CallsTo(s.calls, id) == if s.flights[id].replied && s.flights[id].hasCallback then 1 else 0)
  }

  lemma OwnedIsLive(s: System, base: set<nat>, id: nat)
    requires Sound(s, base) && id in s.flights
    ensures Owned(s.flights[id]) <= AllOwned(s.flights) <= s.heap.live
  {
  }

  ghost function Step(s: System, e: Event, base: set<nat>): System
    requires Sound(s, base) && Allowed(s, e)
  {
    match e
    case SubmitEvent(kind, check, memory, accepted, hasCallback) => Submit(s, kind, check, memory, accepted, hasCallback).0
    case ReplyEvent(id, message) => Deliver(s, id, message)
    case DestroyEvent(id) => OwnedIsLive(s, base, id); Destroy(s, id)
  }

  lemma GrabKeeps(h0: Heap, h: Heap, got: Got)
    requires InRange(h0) && Grabbed(h0, h, got)
    ensures InRange(h) && got.Blocks() !! h0.live
  {
  }

  lemma OwnedAdd(flights: map<nat, Flight>, id: nat, f: Flight)
    requires id !in flights && Apart(flights) && Owned(f) !! AllOwned(flights)
    ensures AllOwned(flights[id := f]) == AllOwned(flights) + Owned(f)
    ensures Apart(flights[id := f])
  {
    var flights' := flights[id := f];
    forall b ensures b in AllOwned(flights') <==> b in AllOwned(flights) || b in Owned(f) {
      if b in AllOwned(flights) {
        var i :| i in flights && b in Owned(flights[i]);
        assert i in flights' && flights'[i] == flights[i];
      }
      if b in Owned(f) {
        assert id in flights' && flights'[id] == f;
      }
    }
    forall i, j, b | i in flights' && j in flights' && b in Owned(flights'[i]) && b in Owned(flights'[j]) ensures i == j {
      assert i != id ==> b in AllOwned(flights);
      assert j != id ==> b in AllOwned(flights);
    }
  }

  lemma OwnedReplace(flights: map<nat, Flight>, id: nat, f: Flight)
    requires id in flights && Apart(flights) && Owned(f) == Owned(flights[id])
    ensures AllOwned(flights[id := f]) == AllOwned(flights)
    ensures Apart(flights[id := f])
  {
    var flights' := flights[id := f];
    assert forall i | i in flights :: Owned(flights'[i]) == Owned(flights[i]);
    forall b ensures b in AllOwned(flights') <==> b in AllOwned(flights) {
    }
  }

  lemma OwnedRemove(flights: map<nat, Flight>, id: nat)
    requires id in flights && Apart(flights)
    ensures AllOwned(flights - {id}) == AllOwned(flights) - Owned(flights[id])
    ensures Apart(flights - {id})
  {
    var flights' := flights - {id};
    forall b ensures b in AllOwned(flights') <==> b in AllOwned(flights) && b !in Owned(flights[id]) {
      if b in AllOwned(flights) && b !in Owned(flights[id]) {
        var i :| i in flights && b in Owned(flights[i]);
        assert i in flights' && flights'[i] == flights[i];
      }
    }
  }

  lemma AddFlightKeeps(s: System, base: set<nat>, h: Heap, f: Flight)
    requires Sound(s, base) && CalledOnce(s)
    requires InRange(h)
    requires h.live == s.heap.live + Owned(f) && Owned(f) !! s.heap.live
    requires SoundFlight(f) && !f.replied
    ensures var s' := System(h, s.flights[s.nextId := f], s.nextId + 1, s.calls);
      Sound(s', base) && CalledOnce(s')
  {
    OwnedAdd(s.flights, s.nextId, f);
  }

  /** The heap after the setup callback of an accepted request. */
  lemma AcceptedHeap(h0: Heap, h: Heap, got: Got, setupFrees: bool)
    requires InRange(h0) && Grabbed(h0, h, got)
    requires got.Complete() && (setupFrees || got.NoTexts())
    ensures got.Data() <= h.live
    ensures var h' := if setupFrees then FreeAll(h, got.Data()) else h;
      var kept := {got.handler.value, got.result.value} + if setupFrees then {} else {got.param.value};
      && InRange(h')
      && h'.live == h0.live + kept && kept !! h0.live
  {
    GrabKeeps(h0, h, got);
    assert got.Blocks() == {got.handler.value, got.result.value} + got.Data();
  }

  lemma AcceptedKeeps(s: System, base: set<nat>, h: Heap, got: Got, kind: Kind, hasCallback: bool)
    requires Sound(s, base) && CalledOnce(s) && Grabbed(s.heap, h, got)
    requires got.Complete() && (!SetupFrees(kind) ==> got.NoTexts())
    ensures got.Data() <= h.live
    ensures var s' := Accepted(s, h, got, kind, hasCallback); Sound(s', base) && CalledOnce(s')
  {
    AcceptedHeap(s.heap, h, got, SetupFrees(kind));
    var s' := Accepted(s, h, got, kind, hasCallback);
    AddFlightKeeps(s, base, s'.heap, s'.flights[s.nextId]);
  }

  lemma FailedKeeps(s: System, base: set<nat>, h: Heap, got: Got)
    requires Sound(s, base) && CalledOnce(s) && Grabbed(s.heap, h, got)
    ensures var s' := s.(heap := FreeAll(h, got.Blocks()));
      Sound(s', base) && CalledOnce(s') && s'.heap.live == s.heap.live
  {
    GrabKeeps(s.heap, h, got);
    assert FreeAll(h, got.Blocks()).live == s.heap.live;
  }

  lemma FinishKeeps(s: System, base: set<nat>, h: Heap, got: Got, failed: Option<Role>, kind: Kind, accepted: bool, hasCallback: bool)
    requires Sound(s, base) && CalledOnce(s) && Grabbed(s.heap, h, got)
    requires failed == None ==> got.Complete() && (!SetupFrees(kind) ==> got.NoTexts())
    ensures var (s', ret) := Finish(s, h, got, failed, kind, accepted, hasCallback);
      Sound(s', base) && CalledOnce(s') && (ret < OK ==> s'.heap.live == s.heap.live)
  {
    if failed.Some? || !accepted {
      FailedKeeps(s, base, h, got);
    } else {
      AcceptedKeeps(s, base, h, got, kind, hasCallback);
    }
  }

  /** A negative return leaves the live blocks, the requests in flight and the callbacks as
      they were; an OK return adds one request; there is no other return. */
  ghost predicate Effect(s: System, s': System, ret: int) {
    && s'.calls == s.calls
    && ret <= OK
    && (ret < OK ==> s'.heap.live == s.heap.live && s'.flights == s.flights && s'.nextId == s.nextId)
    && (ret == OK ==> s'.flights.Keys == s.flights.Keys + {s.nextId} && s'.nextId == s.nextId + 1)
  }

  lemma SubmitKeeps(s: System, base: set<nat>, kind: Kind, check: int, memory: set<Role>, accepted: bool, hasCallback: bool)
    requires Sound(s, base) && CalledOnce(s) && check <= 0
    ensures var (s', ret) := Submit(s, kind, check, memory, accepted, hasCallback);
      Sound(s', base) && CalledOnce(s') && Effect(s, s', ret)
  {
    if check == 0 {
      var (h, got, failed) := GrabFor(s.heap, kind, memory);
      FinishKeeps(s, base, h, got, failed, kind, accepted, hasCallback);
    }
  }

  lemma CallCounts(calls: seq<Call>, c: Call)
    ensures forall id: nat :: CallsTo(calls + [c], id) == CallsTo(calls, id) + if c.id == id then 1 else 0
  {
    assert (calls + [c])[..|calls|] == calls;
  }

  lemma DeliverKeeps(s: System, base: set<nat>, id: nat, message: ReplyMessage)
    requires Sound(s, base) && CalledOnce(s) && id in s.flights && !s.flights[id].replied
    ensures Sound(Deliver(s, id, message), base) && CalledOnce(Deliver(s, id, message))
    ensures Deliver(s, id, message).heap == s.heap
  {
    var s' := Deliver(s, id, message);
    assert SoundFlight(s.flights[id]);
    assert SoundFlight(s'.flights[id]);
    OwnedReplace(s.flights, id, s'.flights[id]);
    if s.flights[id].hasCallback {
      CallCounts(s.calls, Call(id, s'.flights[id].status));
    }
  }

  lemma DestroyKeeps(s: System, base: set<nat>, id: nat)
    requires Sound(s, base) && CalledOnce(s) && id in s.flights
    ensures Owned(s.flights[id]) <= s.heap.live
    ensures Sound(Destroy(s, id), base) && CalledOnce(Destroy(s, id))
  {
    OwnedIsLive(s, base, id);
    OwnedRemove(s.flights, id);
  }

  /** The states of a run, in which every event is one the client contract allows. */
  ghost predicate IsRun(trace: seq<System>, events: seq<Event>, base: set<nat>) {
    && |trace| == |events| + 1
    && Sound(trace[0], base) && CalledOnce(trace[0])
    && forall k | 0 <= k < |events| ::
         Sound(trace[k], base) ==> Allowed(trace[k], events[k]) && trace[k + 1] == Step(trace[k], events[k], base)
  }

  /** Over every run, with any number of requests in flight and any failures: each block is
      live or was freed exactly once, live blocks belong to the requests in flight, and each
      accepted request gets at most one callback. */
  lemma {:induction false} RunKeeps(trace: seq<System>, events: seq<Event>, base: set<nat>, k: nat)
    requires IsRun(trace, events, base) && k < |trace|
    ensures Sound(trace[k], base) && CalledOnce(trace[k])
  {
    if k > 0 {
      RunKeeps(trace, events, base, k - 1);
      StepKeeps(trace[k - 1], events[k - 1], base);
      assert trace[k - 1 + 1] == Step(trace[k - 1], events[k - 1], base);
    }
  }

  lemma StepKeeps(s: System, e: Event, base: set<nat>)
    requires Sound(s, base) && CalledOnce(s) && Allowed(s, e)
    ensures Sound(Step(s, e, base), base) && CalledOnce(Step(s, e, base))
  {
    match e
    case SubmitEvent(kind, check, memory, accepted, hasCallback) =>
      SubmitKeeps(s, base, kind, check, memory, accepted, hasCallback);
    case ReplyEvent(id, message) => DeliverKeeps(s, base, id, message);
    case DestroyEvent(id) => DestroyKeeps(s, base, id);
  }

  /** Once every request of a run has been destroyed the heap holds what it held before. */
  lemma NothingLeftBehind(trace: seq<System>, events: seq<Event>, base: set<nat>)
    requires IsRun(trace, events, base)
    requires trace[|events|].flights == map[]
    ensures trace[|events|].heap.live == base
  {
    RunKeeps(trace, events, base, |events|);
  }

  lemma StepNeverRevives(s: System, e: Event, base: set<nat>, b: nat)
    requires Sound(s, base) && CalledOnce(s) && Allowed(s, e)
    requires b < s.heap.next && b !in s.heap.live
    ensures var s' := Step(s, e, base); b < s'.heap.next && b !in s'.heap.live
  {
    if e.SubmitEvent? && e.check == 0 {
      var (h, got, failed) := GrabFor(s.heap, e.kind, e.memory);
      assert b !in h.live && h.next >= s.heap.next;
    }
  }

  /** A block that was freed is never live again, so nothing frees it a second time: with
      the lemma above, every block of a run is freed exactly once. */
  lemma {:induction false} NeverLiveAgain(trace: seq<System>, events: seq<Event>, base: set<nat>, i: nat, j: nat, b: nat)
    requires IsRun(trace, events, base) && i <= j < |trace|
    requires b < trace[i].heap.next && b !in trace[i].heap.live
    ensures b < trace[j].heap.next && b !in trace[j].heap.live
  {
    if i < j {
      NeverLiveAgain(trace, events, base, i, j - 1, b);
      RunKeeps(trace, events, base, j - 1);
      assert trace[j - 1 + 1] == Step(trace[j - 1], events[j - 1], base);
      StepNeverRevives(trace[j - 1], events[j - 1], base, b);
    }
  }
}
