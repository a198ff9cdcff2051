/** The request functions step by step, allocating and freeing in the order of the code. */
module RequestCalls {
  import opened Basics
  import opened RequestOwnership

  lemma FreeTwice(h: Heap, a: set<nat>, b: set<nat>, both: set<nat>)
    requires both == a + b && both <= h.live && a !! b
    ensures FreeAll(FreeAll(h, a), b) == FreeAll(h, both)
  {
    assert h.live - a - b == h.live - both;
  }

  // ----- how far the allocations of a request have come -----

  function Merge(g: Got, later: Got): Got {
    Got(Either(g.handler, later.handler), Either(g.result, later.result), Either(g.param, later.param),
        Either(g.first, later.first), Either(g.second, later.second))
  }

  function Either(a: Option<nat>, b: Option<nat>): Option<nat> {
    if a.Some? then a else b
  }

  /** The outcome of all allocations of a request: heap, blocks, and the role that failed. */
  type Grabbing = (Heap, Got, Option<Role>)

  /** From heap h with the blocks of g, carrying out plan ends as the whole request does. */
  ghost predicate Doing(whole: Grabbing, memory: set<Role>, h: Heap, g: Got, plan: Plan) {
    && Separate(whole.1) && whole.1.Blocks() <= whole.0.live
    && Proper(plan)
    && (forall role | role in Roles(plan) :: g.At(role) == None)
    && var (h', later, failed) := Grab(h, plan, memory);
       whole == (h', Merge(g, later), failed)
  }

  lemma Begin(h0: Heap, kind: Kind, memory: set<Role>)
    ensures Doing(GrabFor(h0, kind, memory), memory, h0, NOTHING, Order(kind))
  {
    OrderFacts(kind);
  }

  lemma Took(whole: Grabbing, memory: set<Role>, h: Heap, g: Got, plan: Plan)
    requires Doing(whole, memory, h, g, plan) && plan.Alloc? && plan.role in memory
    ensures Doing(whole, memory, Malloc(h), g.With(plan.role, h.next), plan.rest)
  {
    TookRoles(g, plan, h.next);
    TookGrab(h, g, plan, memory);
  }

  lemma TookRoles(g: Got, plan: Plan, b: nat)
    requires Proper(plan) && plan.Alloc?
    requires forall role | role in Roles(plan) :: g.At(role) == None
    ensures forall role | role in Roles(plan.rest) :: g.With(plan.role, b).At(role) == None
  {
    forall role | role in Roles(plan.rest) ensures g.With(plan.role, b).At(role) == None {
      assert role in Roles(plan) && role != plan.role;
    }
  }

  /** Where the remaining allocations lead is the same before and after one that succeeds. */
  lemma TookGrab(h: Heap, g: Got, plan: Plan, memory: set<Role>)
    requires Proper(plan) && plan.Alloc? && plan.role in memory && g.At(plan.role) == None
    ensures var (h', later, failed) := Grab(h, plan, memory);
      var (h'', later', failed') := Grab(Malloc(h), plan.rest, memory);
      h' == h'' && failed == failed' && Merge(g, later) == Merge(g.With(plan.role, h.next), later')
  {
    MergeWith(g, Grab(Malloc(h), plan.rest, memory).1, plan.role, h.next);
  }

  lemma MergeWith(g: Got, later: Got, role: Role, b: nat)
    requires g.At(role) == None
    ensures Merge(g.With(role, b), later) == Merge(g, later.With(role, b))
  {
  }

  lemma Skipped(whole: Grabbing, memory: set<Role>, h: Heap, g: Got, plan: Plan)
    requires Doing(whole, memory, h, g, plan) && plan.Alloc? && plan.role !in memory
    ensures if plan.required then whole == (h, g, Some(plan.role))
            else Doing(whole, memory, h, g, plan.rest)
  {
  }

  lemma Finished(whole: Grabbing, memory: set<Role>, h: Heap, g: Got)
    requires Doing(whole, memory, h, g, Done)
    ensures whole == (h, g, None)
  {
  }

  lemma MessageParts(g: Got, message: nat, first: Option<nat>, second: Option<nat>)
    requires g.param == Some(message) && g.first == first && g.second == second && Separate(g)
    ensures g.Data() == {message} + One(first) + One(second)
    ensures message !in One(first) + One(second) && One(first) !! One(second)
  {
  }

  lemma ThreeBlocks(g: Got, handler: nat, result: nat, param: nat)
    requires g == Got(Some(handler), Some(result), Some(param), None, None) && Separate(g)
    ensures g.Blocks() == {handler, result, param} && g.Data() == {param}
    ensures handler != result && param !in {handler, result}
  {
  }

  class Client {
    var live: set<nat>
    var next: nat
    var flights: map<nat, Flight>
    var nextId: nat
    var calls: seq<Call>

    function Mem(): Heap
      reads this
    {
      Heap(live, next)
    }

    function St(): System
      reads this
    {
      System(Mem(), flights, nextId, calls)
    }

    method Take() returns (b: nat)
      modifies this`live, this`next
      ensures b == old(next) && Mem() == RequestOwnership.Malloc(old(Mem()))
    {
      b := next;
      live, next := live + {b}, next + 1;
    }

    method Malloc(role: Role, memory: set<Role>, ghost whole: Grabbing, ghost g: Got, ghost plan: Plan)
      returns (b: Option<nat>, ghost g': Got)
      requires Doing(whole, memory, Mem(), g, plan) && plan.Alloc? && plan.role == role
      modifies this`live, this`next
      ensures b == if role in memory then Some(old(next)) else None
      ensures Mem() == if role in memory then RequestOwnership.Malloc(old(Mem())) else old(Mem())
      ensures g' == if role in memory then g.With(role, old(next)) else g
      ensures if b == None && plan.required then whole == (Mem(), g', Some(role))
              else Doing(whole, memory, Mem(), g', plan.rest)
    {
      g' := g;
      if role !in memory {
        Skipped(whole, memory, Mem(), g, plan);
        return None, g;
      }
      Took(whole, memory, Mem(), g, plan);
      g' := g.With(role, next);
      var block := Take();
      b := Some(block);
    }

    method Free(b: nat)
      requires b in live
      modifies this`live
      ensures Mem() == FreeAll(old(Mem()), {b})
    {
      live := live - {b};
    }

    /** `free`, which accepts a null pointer. */
    method FreeIf(b: Option<nat>)
      requires One(b) <= live
      modifies this`live
      ensures Mem() == FreeAll(old(Mem()), One(b))
    {
      if b.Some? {
        Free(b.value);
      }
    }

    method HandlerFree(handler: nat, result: nat)
      requires {handler, result} <= live && handler != result
      modifies this`live
      ensures Mem() == FreeAll(old(Mem()), {handler, result})
    {
      Free(result);
      Free(handler);
      FreeTwice(old(Mem()), {result}, {handler}, {handler, result});
    }

    /** `sim_event_data_free` */
    method EventDataFree(handler: nat, result: nat, data: nat)
      requires {handler, result, data} <= live && handler != result && data !in {handler, result}
      modifies this`live
      ensures Mem() == FreeAll(old(Mem()), {handler, result, data})
    {
      Free(data);
      Free(result);
      Free(handler);
      FreeTwice(old(Mem()), {data}, {result}, {data, result});
      FreeTwice(old(Mem()), {data, result}, {handler}, {handler, result, data});
    }

    method MessageFree(message: nat, first: Option<nat>, second: Option<nat>, ghost data: set<nat>)
      requires data == {message} + One(first) + One(second) <= live
      requires message !in One(first) + One(second) && One(first) !! One(second)
      modifies this`live
      ensures Mem() == FreeAll(old(Mem()), data)
    {
      ghost var h := Mem();
      ghost var texts := One(first) + One(second);
      FreeIf(first);
      FreeIf(second);
      assert Mem() == FreeAll(h, texts) by {
        FreeTwice(h, One(first), One(second), texts);
      }
      Free(message);
      assert Mem() == FreeAll(h, data) by {
        FreeTwice(h, texts, {message}, data);
      }
    }

    /** `g_dbus_proxy_method_call` by its contract: false, and nothing has run; or true, and
        the setup callback of this kind of request has run. */
    method MethodCall(kind: Kind, handler: nat, result: nat, param: nat, first: Option<nat>, second: Option<nat>,
        accepted: bool, hasCallback: bool, ghost got: Got) returns (ok: bool)
      requires got == Got(Some(handler), Some(result), Some(param), first, second)
      requires got.Data() <= live && Separate(got)
      requires kind !in {SendMessage, SendDataMessage} ==> first == second == None
      modifies this`live, this`flights, this`nextId
      ensures ok == accepted
      ensures St() == if accepted then Accepted(old(St()), old(Mem()), got, kind, hasCallback) else old(St())
    {
      if !accepted {
        return false;
      }
      var data := Dangling;
      if kind == ChangePin {
        data := Own(param);
      } else if kind in {SendMessage, SendDataMessage} {
        MessageFree(param, first, second, got.Data());
      } else {
        assert got.Data() == {param};
        Free(param);
      }
      flights := flights[nextId := Flight(handler, result, data, kind, hasCallback, None, false)];
      nextId := nextId + 1;
      return true;
    }

    /** Frees a request that was not submitted. */
    method FreeRequest(kind: Kind, handler: nat, result: nat, param: nat, ghost g: Got)
      requires g == Got(Some(handler), Some(result), Some(param), None, None) && Separate(g) && g.Blocks() <= live
      modifies this`live
      ensures Mem() == FreeAll(old(Mem()), g.Blocks())
    {
      ThreeBlocks(g, handler, result, param);
      if kind == ChangePin {
        EventDataFree(handler, result, param);
      } else if kind == Dial || kind == PlayDtmf {
        Free(param);
        HandlerFree(handler, result);
      } else {
        HandlerFree(handler, result);
        Free(param);
      }
      assert live == old(live) - g.Blocks();
    }

    /** The allocations that call and SIM requests share: parameter, result, handler. On
        failure everything is freed again. */
    method NewRequest(kind: Kind, memory: set<Role>) returns (ok: bool, param: nat, ar: nat, handler: nat, ghost g: Got)
      requires kind in {Dial, PlayDtmf, ChangePin, OpenLogicalChannel}
      modifies this`live, this`next
      ensures ok ==> GrabFor(old(Mem()), kind, memory) == (Mem(), g, None) && g == Got(Some(handler), Some(ar), Some(param), None, None)
      ensures !ok ==> Failed(GrabFor(old(Mem()), kind, memory), Mem())
    {
      ghost var whole, plan := GrabFor(Mem(), kind, memory), Order(kind);
      Begin(Mem(), kind, memory);
      var p;
      p, g := Malloc(Param, memory, whole, NOTHING, plan);
      if p == None {
        assert live == live - g.Blocks();
        return false, 0, 0, 0, g;
      }
      param := p.value;
      var failed;
      failed, ar, handler, g := NewResultAndHandler(memory, param, None, None, whole, g);
      ok := failed == None;
    }

    /** The message block and its two strings. */
    method NewMessageParam(kind: Kind, memory: set<Role>, ghost whole: Grabbing)
      returns (message: Option<nat>, first: Option<nat>, second: Option<nat>, ghost g: Got)
      requires kind in {SendMessage, SendDataMessage} && Doing(whole, memory, Mem(), NOTHING, Order(kind))
      modifies this`live, this`next
      ensures message == None ==> Failed(whole, Mem()) && whole.2 == Some(Param)
      ensures message.Some? ==> g == Got(None, None, message, first, second)
      ensures message.Some? ==> Doing(whole, memory, Mem(), g, Alloc(Result, true, Alloc(Handler, true, Done)))
    {
      ghost var plan := Order(kind);
      first, second := None, None;
      message, g := Malloc(Param, memory, whole, NOTHING, plan);
      if message == None {
        assert live == live - g.Blocks();
        return;
      }
      first, g := Malloc(FirstText, memory, whole, g, plan.rest);
      second, g := Malloc(SecondText, memory, whole, g, plan.rest.rest);
    }

    /** Frees the parameter, its strings and the result, as far as they were got. */
    method Abandon(message: nat, first: Option<nat>, second: Option<nat>, ar: Option<nat>, ghost whole: Grabbing)
      requires whole.0 == Mem() && whole.2.Some? && Separate(whole.1) && whole.1.Blocks() <= live
      requires whole.1 == Got(None, ar, Some(message), first, second)
      modifies this`live
      ensures Failed(whole, Mem())
    {
      ghost var g := whole.1;
      MessageParts(g, message, first, second);
      MessageFree(message, first, second, g.Data());
      FreeIf(ar);
      assert live == old(live) - g.Blocks();
    }

    /** The allocations of `tapi_sms_send_message` and `tapi_sms_send_data_message`. */
    method NewMessage(kind: Kind, memory: set<Role>)
      returns (failed: Option<Role>, message: nat, first: Option<nat>, second: Option<nat>, ar: nat, handler: nat, ghost g: Got)
      requires kind in {SendMessage, SendDataMessage}
      modifies this`live, this`next
      ensures failed == GrabFor(old(Mem()), kind, memory).2
      ensures failed == None ==> GrabFor(old(Mem()), kind, memory) == (Mem(), g, None)
      ensures failed == None ==> g == Got(Some(handler), Some(ar), Some(message), first, second)
      ensures failed.Some? ==> Failed(GrabFor(old(Mem()), kind, memory), Mem())
    {
      ghost var whole := GrabFor(Mem(), kind, memory);
      Begin(Mem(), kind, memory);
      var m;
      message, ar, handler := 0, 0, 0;
      m, first, second, g := NewMessageParam(kind, memory, whole);
      if m == None {
        failed := Some(Param);
      } else {
        message := m.value;
        failed, ar, handler, g := NewResultAndHandler(memory, message, first, second, whole, g);
      }
    }

    /** The result and the handler, after the parameter and what belongs to it; if one fails,
        all blocks got are freed. */
    method NewResultAndHandler(memory: set<Role>, message: nat, first: Option<nat>, second: Option<nat>,
        ghost whole: Grabbing, ghost got: Got) returns (failed: Option<Role>, ar: nat, handler: nat, ghost g: Got)
      requires got == Got(None, None, Some(message), first, second)
      requires Doing(whole, memory, Mem(), got, Alloc(Result, true, Alloc(Handler, true, Done)))
      modifies this`live, this`next
      ensures failed == whole.2
      ensures failed == None ==> whole == (Mem(), g, None)
      ensures failed == None ==> g == Got(Some(handler), Some(ar), Some(message), first, second)
      ensures failed.Some? ==> Failed(whole, Mem())
    {
      ghost var plan := Alloc(Result, true, Alloc(Handler, true, Done));
      ar, handler := 0, 0;
      var r;
      r, g := Malloc(Result, memory, whole, got, plan);
      if r == None {
        Abandon(message, first, second, None, whole);
        failed := Some(Result);
      } else {
        ar := r.value;
        failed, handler, g := NewHandler(memory, message, first, second, ar, whole, g);
      }
    }

    method NewHandler(memory: set<Role>, message: nat, first: Option<nat>, second: Option<nat>, ar: nat,
        ghost whole: Grabbing, ghost got: Got) returns (failed: Option<Role>, handler: nat, ghost g: Got)
      requires got == Got(None, Some(ar), Some(message), first, second)
      requires Doing(whole, memory, Mem(), got, Alloc(Handler, true, Done))
      modifies this`live, this`next
      ensures failed == whole.2
      ensures failed == None ==> whole == (Mem(), g, None)
      ensures failed == None ==> g == Got(Some(handler), Some(ar), Some(message), first, second)
      ensures failed.Some? ==> Failed(whole, Mem())
    {
      handler := 0;
      var t;
      t, g := Malloc(Handler, memory, whole, got, Alloc(Handler, true, Done));
      if t == None {
        Abandon(message, first, second, Some(ar), whole);
        failed := Some(Handler);
      } else {
        Finished(whole, memory, Mem(), g);
        handler, failed := t.value, None;
      }
    }

    method FreeMessageRequest(handler: nat, ar: nat, message: nat, first: Option<nat>, second: Option<nat>, ghost g: Got)
      requires g == Got(Some(handler), Some(ar), Some(message), first, second) && Separate(g) && g.Blocks() <= live
      modifies this`live
      ensures Mem() == FreeAll(old(Mem()), g.Blocks())
    {
      ghost var h := Mem();
      HandlerFree(handler, ar);
      MessageFree(message, first, second, g.Data());
      assert live == h.live - g.Blocks();
    }

    /** `tapi_sms_send_message` and `tapi_sms_send_data_message` */
    method MessageRequest(kind: Kind, check: int, memory: set<Role>, accepted: bool, hasCallback: bool) returns (ret: int)
      requires kind in {SendMessage, SendDataMessage} && check <= 0
      modifies this
      ensures (St(), ret) == Submit(old(St()), kind, check, memory, accepted, hasCallback)
    {
      if check != 0 {
        return check;
      }
      var failed, message, first, second, ar, handler;
      ghost var s := St();
      ghost var g;
      failed, message, first, second, ar, handler, g := NewMessage(kind, memory);
      if failed.Some? {
        SubmitFails(s, kind, memory, accepted, hasCallback, Mem());
        return if kind == SendMessage && failed == Some(Param) then -EINVAL else -ENOMEM;
      }
      ghost var h := Mem();
      SubmitFinishes(s, kind, memory, accepted, hasCallback, h, g);
      var ok := MethodCall(kind, handler, ar, message, first, second, accepted, hasCallback, g);
      if !ok {
        FreeMessageRequest(handler, ar, message, first, second, g);
        return -EINVAL;
      }
      return OK;
    }

    /** The handler comes first here, the parameter last. */
    method NewOemRequest(memory: set<Role>) returns (ok: bool, param: nat, ar: nat, handler: nat, ghost g: Got)
      modifies this`live, this`next
      ensures ok ==> GrabFor(old(Mem()), OemRequestRaw, memory) == (Mem(), g, None)
      ensures ok ==> g == Got(Some(handler), Some(ar), Some(param), None, None)
      ensures !ok ==> Failed(GrabFor(old(Mem()), OemRequestRaw, memory), Mem())
    {
      ghost var whole, plan := GrabFor(Mem(), OemRequestRaw, memory), Order(OemRequestRaw);
      Begin(Mem(), OemRequestRaw, memory);
      var p, r, t;
      t, g := Malloc(Handler, memory, whole, NOTHING, plan);
      if t == None {
        assert live == live - g.Blocks();
        return false, 0, 0, 0, g;
      }
      r, g := Malloc(Result, memory, whole, g, plan.rest);
      ghost var h := Mem();
      if r == None {
        Free(t.value);
        assert live == h.live - g.Blocks();
        return false, 0, 0, 0, g;
      }
      p, g := Malloc(Param, memory, whole, g, plan.rest.rest);
      h := Mem();
      if p == None {
        Free(t.value);
        Free(r.value);
        assert live == h.live - g.Blocks();
        return false, 0, 0, 0, g;
      }
      Finished(whole, memory, h, g);
      return true, p.value, r.value, t.value, g;
    }

    method NewBlocks(kind: Kind, memory: set<Role>) returns (ok: bool, param: nat, ar: nat, handler: nat, ghost g: Got)
      requires kind !in {SendMessage, SendDataMessage}
      modifies this`live, this`next
      ensures ok ==> GrabFor(old(Mem()), kind, memory) == (Mem(), g, None) && g == Got(Some(handler), Some(ar), Some(param), None, None)
      ensures !ok ==> Failed(GrabFor(old(Mem()), kind, memory), Mem())
    {
      if kind == OemRequestRaw {
        ok, param, ar, handler, g := NewOemRequest(memory);
      } else {
        ok, param, ar, handler, g := NewRequest(kind, memory);
      }
    }

    /** `tapi_call_dial`, `call_play_dtmf`, `tapi_sim_open_logical_channel`, `tapi_sim_change_pin`
        and `tapi_invoke_oem_ril_request_raw`, which differ in the order of their allocations,
        in the order in which a failed submission frees them, and in who owns the parameter
        of an accepted one. */
    method BlockRequest(kind: Kind, check: int, memory: set<Role>, accepted: bool, hasCallback: bool) returns (ret: int)
      requires kind !in {SendMessage, SendDataMessage} && check <= 0
      modifies this
      ensures (St(), ret) == Submit(old(St()), kind, check, memory, accepted, hasCallback)
    {
      if check != 0 {
        return check;
      }
      ghost var s := St();
      var ok, param, ar, handler;
      ghost var g;
      ok, param, ar, handler, g := NewBlocks(kind, memory);
      if !ok {
        SubmitFails(s, kind, memory, accepted, hasCallback, Mem());
        return -ENOMEM;
      }
      SubmitFinishes(s, kind, memory, accepted, hasCallback, Mem(), g);
      ok := MethodCall(kind, handler, ar, param, None, None, accepted, hasCallback, g);
      if !ok {
        FreeRequest(kind, handler, ar, param, g);
        return -EINVAL;
      }
      return OK;
    }

    /** The reply callback of a request. */
    method OnReply(id: nat, message: ReplyMessage)
      requires id in flights
      modifies this`flights, this`calls
      ensures St() == Deliver(old(St()), id, message)
    {
      var f := flights[id].(replied := true);
      if !f.hasCallback {
        flights := flights[id := f];
        return;
      }
      match f.kind {
        case PlayDtmf | ChangePin =>
          f := f.(status := Some(OK));
          if message == BusError {
            f := f.(status := Some(ERROR));
          }
        case OpenLogicalChannel =>
          f := f.(status := Some(if message == BusError || message == NoBody then ERROR else OK));
        case OemRequestRaw =>
          if message == BusError || message == NoBody {
            f := f.(status := Some(ERROR));
          } else {
            f := f.(data := External, status := Some(OK));
          }
        case Dial | SendMessage | SendDataMessage =>
          if message == BusError || message == NoBody {
            f := f.(status := Some(ERROR));
          } else if message == PathBody {
            f := f.(data := External, status := Some(OK));
          }
      }
      flights := flights[id := f];
      calls := calls + [Call(id, f.status)];
    }

    /** The destroy callback: `handler_free`, or the one that also frees `ar->data`. */
    method OnDestroy(id: nat)
      requires id in flights && SoundFlight(flights[id]) && Owned(flights[id]) <= live
      modifies this`live, this`flights
      ensures St() == Destroy(old(St()), id)
    {
      var f := flights[id];
      if f.kind == ChangePin {
        EventDataFree(f.handler, f.result, f.data.block);
        assert Owned(f) == {f.handler, f.result, f.data.block};
      } else {
        HandlerFree(f.handler, f.result);
        assert Owned(f) == {f.handler, f.result};
      }
      flights := flights - {id};
    }

    /** Whatever the contract of the client allows next is served and keeps the ownership. */
    method Handle(e: Event, ghost base: set<nat>)
      requires Sound(St(), base) && CalledOnce(St()) && Allowed(St(), e)
      modifies this
      ensures St() == Step(old(St()), e, base)
      ensures Sound(St(), base) && CalledOnce(St())
    {
      StepKeeps(St(), e, base);
      match e {
        case SubmitEvent(kind, check, memory, accepted, hasCallback) =>
          var _ := HandleSubmit(kind, check, memory, accepted, hasCallback);
        case ReplyEvent(id, message) =>
          OnReply(id, message);
        case DestroyEvent(id) =>
          OwnedIsLive(St(), base, id);
          OnDestroy(id);
      }
    }

    method HandleSubmit(kind: Kind, check: int, memory: set<Role>, accepted: bool, hasCallback: bool) returns (ret: int)
      requires check <= 0
      modifies this
      ensures (St(), ret) == Submit(old(St()), kind, check, memory, accepted, hasCallback)
    {
      match kind {
        case SendMessage | SendDataMessage => ret := MessageRequest(kind, check, memory, accepted, hasCallback);
        case _ => ret := BlockRequest(kind, check, memory, accepted, hasCallback);
      }
    }
  }

  lemma SubmitFails(s: System, kind: Kind, memory: set<Role>, accepted: bool, hasCallback: bool, h: Heap)
    requires Failed(GrabFor(s.heap, kind, memory), h)
    ensures Submit(s, kind, 0, memory, accepted, hasCallback) ==
            (s.(heap := h), Errno(kind, GrabFor(s.heap, kind, memory).2.value))
  {
  }

  lemma SubmitFinishes(s: System, kind: Kind, memory: set<Role>, accepted: bool, hasCallback: bool, h: Heap, g: Got)
    requires GrabFor(s.heap, kind, memory) == (h, g, None)
    ensures Submit(s, kind, 0, memory, accepted, hasCallback) ==
            if accepted then (Accepted(s, h, g, kind, hasCallback), OK)
            else (s.(heap := FreeAll(h, g.Blocks())), -EINVAL)
    ensures Accepted(s, h, g, kind, hasCallback) == Accepted(s.(heap := h), h, g, kind, hasCallback)
  {
  }

  /** After a failed allocation: some role failed and all the blocks got are freed again. */
  ghost predicate Failed(whole: Grabbing, h: Heap) {
    whole.2.Some? && whole.1.Blocks() <= whole.0.live && h == FreeAll(whole.0, whole.1.Blocks())
  }
}
