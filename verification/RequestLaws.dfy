/** Return codes of the request functions and what their callbacks are told, kind by kind. */
module RequestLaws {
  import opened Basics
  import opened RequestOwnership

  // ----- submission -----

  lemma {:induction false} GrabFails(h: Heap, plan: Plan, memory: set<Role>)
    requires Proper(plan)
    ensures var failed := Grab(h, plan, memory).2;
      && (failed == None <==> Needed(plan) <= memory)
      && (failed.Some? ==> failed.value in Needed(plan) && failed.value !in memory)
    decreases plan
  {
    if plan.Alloc? {
      if plan.role in memory {
        GrabFails(Malloc(h), plan.rest, memory);
      } else if !plan.required {
        GrabFails(h, plan.rest, memory);
      }
    }
  }

  /** The error of the argument and proxy checks comes first, then memory, then the client;
      only a text message without memory for its parameter reports an invalid argument. */
  lemma SubmitReturns(s: System, kind: Kind, check: int, memory: set<Role>, accepted: bool, hasCallback: bool)
    requires check <= 0
    ensures Submit(s, kind, check, memory, accepted, hasCallback).1 ==
      if check < 0 then check
      else if !({Param, Result, Handler} <= memory) then (if kind == SendMessage && Param !in memory then -22 else -12)
      else if !accepted then -22
      else 0
  {
    OrderFacts(kind);
    GrabFails(s.heap, Order(kind), memory);
    var failed := GrabFor(s.heap, kind, memory).2;
    if Param !in memory && kind == SendMessage {
      assert failed == Some(Param);
    }
  }

  /** An accepted request is in flight with the next number, its callback and no status yet;
      only a PIN change still owns its parameter, which lies apart from the other blocks. */
  lemma SubmitFlies(s: System, kind: Kind, memory: set<Role>, hasCallback: bool)
    requires {Param, Result, Handler} <= memory
    ensures var s' := Submit(s, kind, 0, memory, true, hasCallback).0;
      && s'.nextId == s.nextId + 1 && s'.calls == s.calls
      && s.nextId in s'.flights && s'.flights == s.flights[s.nextId := s'.flights[s.nextId]]
      && var f := s'.flights[s.nextId];
         f.kind == kind && f.hasCallback == hasCallback && f.status == None && !f.replied
         && (f.data.Own? <==> kind == ChangePin) && (!f.data.Own? ==> f.data == Dangling)
  {
    SubmitReturns(s, kind, 0, memory, true, hasCallback);
  }

  // ----- replies -----

  /** The replies after which a kind of request reports success ... */
  predicate Succeeds(kind: Kind, message: ReplyMessage) {
    match kind
    case PlayDtmf | ChangePin => message in {NoBody, PathBody, OtherBody}
    case OpenLogicalChannel | OemRequestRaw => message in {PathBody, OtherBody}
    case Dial | SendMessage | SendDataMessage => message == PathBody
  }

  /** ... and those after which it reports an error. */
  predicate Fails(kind: Kind, message: ReplyMessage) {
    match kind
    case PlayDtmf | ChangePin => message == BusError
    case OpenLogicalChannel | OemRequestRaw | Dial | SendMessage | SendDataMessage => message in {BusError, NoBody}
  }

  /** The status that a callback is told when it was `before`. */
  function Told(kind: Kind, message: ReplyMessage, before: Option<int>): Option<int> {
    if Succeeds(kind, message) then Some(0) else if Fails(kind, message) then Some(-1) else before
  }

  /** A reply to a request with a callback: one call with status OK for its good replies, an
      error for its bad ones, and the status as it was for an unexpected body. The data
      points into the reply for a path of a dial or message and for the body of a vendor
      request, and stays as it was otherwise. */
  lemma DeliverTells(s: System, id: nat, message: ReplyMessage)
    requires id in s.flights
    ensures var s', f := Deliver(s, id, message), s.flights[id];
      if !f.hasCallback then s' == s.(flights := s.flights[id := f.(replied := true)])
      else
        var into := (f.kind in {Dial, SendMessage, SendDataMessage} && message == PathBody)
                    || (f.kind == OemRequestRaw && message in {PathBody, OtherBody});
        var told := Told(f.kind, message, f.status);
        s' == s.(calls := s.calls + [Call(id, told)],
                 flights := s.flights[id := f.(status := told, replied := true, data := if into then External else f.data)])
  {
  }

  /** A bus error never makes a kind succeed, no reply makes it succeed and fail, and only an
      unexpected body of a dial or message does neither. */
  lemma EveryReply(kind: Kind, message: ReplyMessage)
    ensures Told(kind, BusError, None) == Some(-1)
    ensures !(Succeeds(kind, message) && Fails(kind, message))
    ensures Told(kind, message, None) == None <==> kind in {Dial, SendMessage, SendDataMessage} && message == OtherBody
  {
  }

  // ----- runs -----

  /** Callback c comes from the reply at event j of the run. */
  ghost predicate CameFrom(trace: seq<System>, events: seq<Event>, j: nat, c: Call)
    requires j < |trace| && j < |events|
  {
    && events[j].ReplyEvent? && events[j].id == c.id
    && c.id in trace[j].flights && trace[j].flights[c.id].hasCallback
    && c.status == Told(trace[j].flights[c.id].kind, events[j].message, None)
  }

  ghost predicate Explained(trace: seq<System>, events: seq<Event>, k: nat, c: Call)
    requires |trace| == |events| + 1 && k < |trace|
  {
    exists j :: 0 <= j < k && CameFrom(trace, events, j, c)
  }

  ghost predicate StatusUnset(s: System) {
    forall id | id in s.flights :: !s.flights[id].replied ==> s.flights[id].status == None
  }

  lemma StatusStaysUnset(s: System, e: Event, base: set<nat>)
    requires Sound(s, base) && CalledOnce(s) && Allowed(s, e) && StatusUnset(s)
    ensures StatusUnset(Step(s, e, base))
  {
  }

  lemma StepExplains(s: System, e: Event, base: set<nat>)
    requires Sound(s, base) && CalledOnce(s) && Allowed(s, e) && StatusUnset(s)
    ensures Step(s, e, base).calls == s.calls +
      if e.ReplyEvent? && s.flights[e.id].hasCallback then [Call(e.id, Told(s.flights[e.id].kind, e.message, None))] else []
  {
    match e
    case SubmitEvent(kind, check, memory, accepted, hasCallback) => SubmitKeeps(s, base, kind, check, memory, accepted, hasCallback);
    case ReplyEvent(id, message) => DeliverTells(s, id, message);
    case DestroyEvent(id) =>
  }

  /** Over any run from a start without requests, every callback comes from a reply to its own
      request and is told OK exactly for a good reply of its kind, an error exactly for a bad
      one, and nothing for an unexpected body. */
  lemma {:induction false} RunTells(trace: seq<System>, events: seq<Event>, base: set<nat>, k: nat)
    requires IsRun(trace, events, base) && k < |trace|
    requires trace[0].flights == map[] && trace[0].calls == []
    ensures StatusUnset(trace[k])
    ensures forall i :: 0 <= i < |trace[k].calls| ==> Explained(trace, events, k, trace[k].calls[i])
  {
    if k > 0 {
      var s, e := trace[k - 1], events[k - 1];
      RunTells(trace, events, base, k - 1);
      RunKeeps(trace, events, base, k - 1);
      assert trace[k - 1 + 1] == Step(s, e, base);
      StatusStaysUnset(s, e, base);
      StepExplains(s, e, base);
      forall i | 0 <= i < |trace[k].calls| ensures Explained(trace, events, k, trace[k].calls[i]) {
        var c := trace[k].calls[i];
        if i < |s.calls| {
          assert Explained(trace, events, k - 1, s.calls[i]);
          var j :| 0 <= j < k - 1 && CameFrom(trace, events, j, c);
        } else {
          assert CameFrom(trace, events, k - 1, c);
        }
      }
    }
  }
}
