/** The handlers and reply functions on a context object that is updated in place, with the
    `ar->data` cell of each agent and the parameter blocks as the code has them. */
module StkContext {
  import opened Basics
  import opened StkAgent
  import opened StkAsWritten
  import opened StkConservation

  function Block(params: Option<nat>): set<nat> {
    if params.Some? then {params.value} else {}
  }

  class Context {
    const connected: bool
    var pending: Option<Message>
    var received: seq<Method>
    var taken: multiset<nat>
    var dropped: multiset<nat>
    var sent: seq<Sent>
    var indications: seq<Indication>
    var cells: map<nat, Cell>  // `ar->data` of each agent that has been overwritten
    var live: set<nat>         // parameter blocks
    var next: nat

    function Whole(): Written
      reads this
    {
      Written(St(), cells, live, next)
    }

    function St(): State
      reads this
    {
      State(pending, received, taken, dropped, sent, indications)
    }

    constructor (connected: bool)
      ensures Whole() == FRESH && this.connected == connected
    {
      this.connected := connected;
      pending, received, taken, dropped, sent, indications := None, [], multiset{}, multiset{}, [], [];
      cells, live, next := map[], {}, 0;
    }

    method Unref()
      requires pending.Some?
      modifies this`pending, this`dropped
      ensures St() == DropPending(old(St()))
    {
      dropped := dropped + multiset{pending.value.serial};
      pending := None;
    }

    /** `stk_agent_dbus_pending_reply`: reply is None for a null pointer. */
    method PendingReply(reply: Option<Body>) returns (done: bool)
      requires connected && pending.Some?
      modifies this`pending, this`dropped, this`sent
      ensures done <==> reply.Some?
      ensures St() == if reply.Some? then DropPending(Send(old(St()), old(pending).value, reply.value)) else old(St())
    {
      if reply == None {
        return false;
      }
      sent := sent + [Sent(pending.value, reply.value)];
      Unref();
      return true;
    }

    /** The fifteen `tapi_stk_handle_agent_*` functions. */
    method HandleAgent(a: Answer) returns (ret: int)
      modifies this`pending, this`dropped, this`sent
      ensures St() == Reply(old(St()), connected, a)
      ensures ret == if !connected || old(pending) == None then -EINVAL else if a.built then OK else ERROR
    {
      if !connected {
        return -EINVAL;
      }
      if pending == None {
        return -EINVAL;
      }
      var family, reply := FamilyOf(a.fn), None;
      if a.op == OP_CODE_CONFIRM_POSITIVE || (a.op == OP_CODE_CONFIRM_NEGATIVE && family == ConfirmationFamily) {
        var args: seq<Arg> := [];
        match family {
          case DisplayTextFamily =>
          case ToneFamily =>
          case KeyFamily => args := [StringArg(a.text)];
          case InputFamily => args := [StringArg(a.text)];
          case ConfirmationFamily => args := [BooleanArg(a.op == OP_CODE_CONFIRM_POSITIVE)];
          case SelectionFamily => args := [ByteArg(a.selection)];
        }
        reply := Some(MethodReturn(args));
      } else if a.op == OP_CODE_CONFIRM_NEGATIVE {
        reply := Some(ErrorReply(EndSession));
      } else if a.op == OP_CODE_CONFIRM_BACKWARD {
        reply := Some(ErrorReply(GoBack));
      } else {
        reply := Some(ErrorReply(Failed));
      }
      assert reply == Some(AnswerBody(a));
      var done := PendingReply(if a.built then reply else None);
      return if done then OK else ERROR;
    }

    /** `cb(ar)`: the application may answer, any number of times, before it returns. */
    method Callback(agent: Agent, id: MsgId, ok: bool, inside: seq<Answer>)
      modifies this`pending, this`dropped, this`sent, this`indications
      ensures St() == Replies(Notify(old(St()), agent, id, ok), connected, inside)
    {
      indications := indications + [Indication(agent.id, id, ok)];
      ghost var st0 := St();
      var k := 0;
      while k < |inside|
        invariant 0 <= k <= |inside|
        invariant Replies(St(), connected, inside[k..]) == Replies(st0, connected, inside)
      {
        assert inside[k..][1..] == inside[k + 1..];
        var _ := HandleAgent(inside[k]);
        k := k + 1;
      }
    }

    /** `malloc` of a parameter block */
    method Allocate() returns (block: nat)
      modifies this`live, this`next
      ensures block == old(next) && next == old(next) + 1 && live == old(live) + {block}
    {
      block := next;
      live, next := live + {block}, next + 1;
    }

    method Free(block: nat)
      requires block in live
      modifies this`live
      ensures live == old(live) - {block}
    {
      live := live - {block};
    }

    /** Loads the context from the cell of an agent; looking into a freed block has no meaning. */
    method LoadContext(id: nat) returns (hasContext: bool)
      requires id in cells && cells[id].BlockCell? ==> cells[id].block in live
      ensures hasContext == (CellOf(Whole(), id) != NullCell)
    {
      return !(id in cells && cells[id] == NullCell);
    }

    /** The body of the fifteen request handlers; the error it returns is sent at once. */
    method HandleRequest(agent: Agent, a: Arrival, inside: seq<Answer>)
      requires live == {} && !ReadsFreed(Whole(), RequestEvent(agent, a, inside))
      modifies this
      ensures Whole() == WrittenRequest(old(Whole()), connected, agent, a, inside)
    {
      if agent.hasCallback {
        HandleWithCallback(agent, a, inside, Found(old(Whole()), agent));
      } else {
        var msg := Message(|received|, a.what);
        received := received + [a.what];
        sent := sent + [Sent(msg, ErrorReply(NotImplemented))];
      }
    }

    method HandleWithCallback(agent: Agent, a: Arrival, inside: seq<Answer>, ghost found: Agent)
      requires agent.hasCallback && found == Found(Whole(), agent)
      requires live == {} && !ReadsFreed(Whole(), RequestEvent(agent, a, inside))
      modifies this
      ensures St() == Request(old(St()), connected, found, a, inside)
      ensures cells == (if Refusal(found, a, old(pending).Some?) == None then old(cells)[agent.id := BlockCell(old(next))] else old(cells))
      ensures next == (if Allocates(found, a, old(pending).Some?) then old(next) + 1 else old(next)) && live == {}
    {
      var msg := Message(|received|, a.what);
      received := received + [a.what];
      var reply, params := Admit(msg, agent, a, old(St()), found);
      Finish(msg, agent, reply, params, inside);
    }

    /** From the callback of a request handler to its return. */
    method Finish(msg: Message, agent: Agent, reply: Option<ErrorName>, params: Option<nat>, inside: seq<Answer>)
      requires live == Block(params)
      modifies this`pending, this`dropped, this`sent, this`indications, this`live
      ensures var st := Replies(Notify(old(St()), agent, RequestInd(msg.what), reply == None), connected, inside);
        St() == if reply.Some? then Send(st, msg, ErrorReply(reply.value)) else st
      ensures live == {}
    {
      Callback(agent, RequestInd(msg.what), reply == None, inside);
      if params.Some? {
        Free(params.value);
      }
      if reply.Some? {
        sent := sent + [Sent(msg, ErrorReply(reply.value))];
      }
    }

    /** From the entry of a request handler to its callback: the error, if any, and the
        parameter block. */
    method Admit(msg: Message, agent: Agent, a: Arrival, ghost st: State, ghost found: Agent)
      returns (reply: Option<ErrorName>, params: Option<nat>)
      requires agent.hasCallback && found == Found(Whole(), agent) && live == {} && !ReadsFreed(Whole(), RequestEvent(agent, a, []))
      requires msg == Message(|st.received|, a.what) && St() == st.(received := st.received + [a.what])
      modifies this`pending, this`taken, this`cells, this`live, this`next
      ensures reply == Refusal(found, a, st.pending.Some?)
      ensures St() == Admitted(st, found, a)
      ensures params == if Allocates(found, a, st.pending.Some?) then Some(old(next)) else None
      ensures next == (if params.Some? then old(next) + 1 else old(next)) && live == Block(params)
      ensures cells == (if reply == None then old(cells)[agent.id := BlockCell(old(next))] else old(cells))
    {
      params := None;
      if a.what == RequestSelection {
        if a.isError {
          return Some(Failed), None;
        }
        if !a.hasBody {
          return Some(InvalidArguments), None;
        }
      }
      var hasContext := LoadContext(agent.id);
      if !hasContext {
        return Some(Failed), None;
      }
      if pending.Some? {
        return Some(Busy), None;
      }
      if !a.memory {
        return Some(NotImplemented), None;
      }
      var block := Allocate();
      if a.what != RequestSelection && !a.argsMatch {
        return Some(InvalidArguments), Some(block);
      }
      taken := taken + multiset{msg.serial};
      pending := Some(msg);
      cells := cells[agent.id := BlockCell(block)];
      return None, Some(block);
    }

    /** `stk_agent_cancel` and `stk_agent_release` with the reply they return themselves. */
    method HandleWithdraw(agent: Agent, id: MsgId, inside: seq<Answer>) returns (reply: OwnReply)
      requires id == CancelInd || id == ReleaseInd
      requires live == {} && !(agent.hasCallback && CellOf(Whole(), agent.id).BlockCell?)
      modifies this
      ensures Whole() == WrittenWithdraw(old(Whole()), connected, agent, id, inside)
      ensures reply == WithdrawReply(old(Whole()), agent, id)
    {
      if !agent.hasCallback {
        return OwnError(NotImplemented);
      }
      reply := if id == ReleaseInd then EmptyReturn else NoReply;
      var hasContext := LoadContext(agent.id);
      if !hasContext {
        Callback(agent, StaleInd, false, inside);
        return OwnError(Failed);
      }
      if pending.Some? {
        Unref();
      }
      cells := cells[agent.id := NullCell];
      Callback(agent, id, true, inside);
    }

    /** One event that has a meaning. */
    method Handle(e: Event)
      requires live == {} && !ReadsFreed(Whole(), e)
      modifies this
      ensures Whole() == WrittenStep(old(Whole()), connected, e) && live == {}
    {
      match e {
        case RequestEvent(agent, a, inside) => HandleRequest(agent, a, inside);
        case AnswerEvent(a) => var _ := HandleAgent(a);
        case CancelEvent(agent, inside) => var _ := HandleWithdraw(agent, CancelInd, inside);
        case ReleaseEvent(agent, inside) => var _ := HandleWithdraw(agent, ReleaseInd, inside);
      }
    }

    /** Serves any run that keeps its meaning: its state is that of the pure run, requests and
        references are conserved, and no parameter block is left. */
    method Serve(events: seq<Event>)
      requires Whole() == FRESH && NoneAfterAccepted(connected, events)
      modifies this
      ensures WrittenRun(connected, events) == Some(Whole())
      ensures Conserved(St()) && live == {}
    {
      DefinedIffNoneAfterAccepted(connected, events);
      ghost var trace := TraceOf(connected, events);
      ServeAll(events, trace);
      WrittenRequestsSettledOnce(connected, events);
    }

    method ServeAll(events: seq<Event>, ghost trace: seq<Written>)
      requires IsTrace(connected, events, trace) && Whole() == trace[0] && live == {}
      modifies this
      ensures Whole() == trace[|events|]
    {
      var k := 0;
      while k < |events|
        invariant 0 <= k <= |events|
        invariant Whole() == trace[k] && live == {}
      {
        assert Follows(connected, trace[k], events[k], trace[k + 1]);
        Handle(events[k]);
        k := k + 1;
      }
    }
  }

  ghost predicate Follows(connected: bool, w: Written, e: Event, w': Written) {
    !ReadsFreed(w, e) && w' == WrittenStep(w, connected, e)
  }

  /** The states of a run in which every event has a meaning. */
  ghost predicate IsTrace(connected: bool, events: seq<Event>, trace: seq<Written>) {
    |trace| == |events| + 1 && forall k :: 0 <= k < |events| ==> Follows(connected, trace[k], events[k], trace[k + 1])
  }

  lemma {:induction false} TraceOf(connected: bool, events: seq<Event>) returns (trace: seq<Written>)
    requires WrittenRun(connected, events).Some?
    ensures IsTrace(connected, events, trace) && trace[0] == FRESH && WrittenRun(connected, events) == Some(trace[|events|])
  {
    if events == [] {
      trace := [FRESH];
    } else {
      var front := TraceOf(connected, Front(events));
      trace := front + [WrittenRun(connected, events).value];
      forall k | 0 <= k < |events| ensures Follows(connected, trace[k], events[k], trace[k + 1]) {
        assert k < |events| - 1 ==> Follows(connected, front[k], Front(events)[k], front[k + 1]);
      }
    }
  }
}
