/** What the agent handlers and the answers send, indicate and keep, case by case. */
module StkLaws {
  import opened Basics
  import opened StkAgent
  import opened StkAsWritten

  // ----- answers -----

  /** The answer went to the pending message, which is done with. */
  ghost predicate Answered(st: State, st': State, body: Body) {
    && st.pending.Some?
    && st' == st.(pending := None,
                  dropped := st.dropped + multiset{st.pending.value.serial},
                  sent := st.sent + [Sent(st.pending.value, body)])
  }

  /** A yes goes out as true and a no as false, for every confirmation. */
  lemma ConfirmationSends(st: State, a: Answer)
    requires st.pending.Some? && a.built
    requires a.fn in {ConfirmRequest, ConfirmCallSetup, ConfirmLaunchBrowser, ConfirmOpenChannel}
    ensures Answered(st, Reply(st, true, a),
      if a.op == 0 then MethodReturn([BooleanArg(true)])
      else if a.op == 1 then MethodReturn([BooleanArg(false)])
      else if a.op == 2 then ErrorReply(GoBack)
      else ErrorReply(Failed))
  {
  }

  /** Keys, digits and input go out as the text given; a no ends the session. */
  lemma TextSends(st: State, a: Answer)
    requires st.pending.Some? && a.built
    requires a.fn in {RequestWithDigit, RequestWithKey, RequestQuickDigit, RequestWithInput, RequestWithDigits}
    ensures Answered(st, Reply(st, true, a),
      if a.op == 0 then MethodReturn([StringArg(a.text)])
      else if a.op == 1 then ErrorReply(EndSession)
      else if a.op == 2 then ErrorReply(GoBack)
      else ErrorReply(Failed))
  {
  }

  /** A selection goes out as the byte given. */
  lemma SelectionSends(st: State, a: Answer)
    requires st.pending.Some? && a.built && a.fn == RequestSelection
    ensures Answered(st, Reply(st, true, a),
      if a.op == 0 then MethodReturn([ByteArg(a.selection)])
      else if a.op == 1 then ErrorReply(EndSession)
      else if a.op == 2 then ErrorReply(GoBack)
      else ErrorReply(Failed))
  {
  }

  /** Displayed texts and tones are answered without arguments. */
  lemma DisplaySends(st: State, a: Answer)
    requires st.pending.Some? && a.built
    requires a.fn in {ShowInformation, DisplayActionInformation, DisplayAction, RequestPlayTone, RequestLoopTone}
    ensures Answered(st, Reply(st, true, a),
      if a.op == 0 then MethodReturn([])
      else if a.op == 1 then ErrorReply(EndSession)
      else if a.op == 2 then ErrorReply(GoBack)
      else ErrorReply(Failed))
  {
  }

  /** Nothing happens without a connection, a pending message or a reply. */
  lemma AnswerIgnored(st: State, connected: bool, a: Answer)
    requires !connected || st.pending == None || !a.built
    ensures Reply(st, connected, a) == st
  {
  }

  /** Of the answers made in one callback the first that can be built is sent, if a message
      is pending, and all others change nothing. */
  lemma {:induction false} FirstBuiltAnswers(st: State, connected: bool, answers: seq<Answer>, k: nat)
    requires forall i :: 0 <= i < k && i < |answers| ==> !answers[i].built
    requires k < |answers| ==> answers[k].built
    ensures Replies(st, connected, answers) ==
            if connected && st.pending.Some? && k < |answers| then Reply(st, true, answers[k]) else st
    decreases answers
  {
    if answers != [] {
      var st' := Reply(st, connected, answers[0]);
      if k > 0 {
        AnswerIgnored(st, connected, answers[0]);
        FirstBuiltAnswers(st, connected, answers[1..], k - 1);
      } else if connected && st.pending.Some? {
        NoPendingNoAnswer(st', connected, answers[1..]);
      } else {
        NoPendingNoAnswer(st, connected, answers);
      }
    }
  }

  lemma {:induction false} NoPendingNoAnswer(st: State, connected: bool, answers: seq<Answer>)
    requires !connected || st.pending == None
    ensures Replies(st, connected, answers) == st
    decreases answers
  {
    if answers != [] {
      AnswerIgnored(st, connected, answers[0]);
      NoPendingNoAnswer(st, connected, answers[1..]);
    }
  }

  // ----- requests -----

  /** The selection handler tests its message before it looks at its context. */
  predicate Legible(a: Arrival) {
    a.what == RequestSelection ==> !a.isError && a.hasBody
  }

  /** The request was refused with this error, after the callback, and not kept. */
  ghost predicate RefusedWith(st: State, st': State, what: Method, e: ErrorName) {
    && st'.taken == st.taken && st'.received == st.received + [what]
    && st'.sent != [] && Last(st'.sent) == Sent(Message(|st.received|, what), ErrorReply(e))
  }

  ghost predicate WasAccepted(st: State, st': State) {
    st'.taken == st.taken + multiset{|st.received|}
  }

  lemma {:induction false} RepliesTake(st: State, connected: bool, answers: seq<Answer>)
    ensures Replies(st, connected, answers).taken == st.taken
    ensures Replies(st, connected, answers).received == st.received
    decreases answers
  {
    if answers != [] {
      RepliesTake(Reply(st, connected, answers[0]), connected, answers[1..]);
    }
  }

  /** Exactly when a request is refused with which error, and when it is accepted. */
  lemma RequestOutcome(st: State, connected: bool, agent: Agent, a: Arrival, inside: seq<Answer>)
    ensures var st', busy := Request(st, connected, agent, a, inside), st.pending.Some?;
      && (RefusedWith(st, st', a.what, NotImplemented) <==>
          !agent.hasCallback || (Legible(a) && agent.hasContext && !busy && !a.memory))
      && (RefusedWith(st, st', a.what, Failed) <==>
          agent.hasCallback && ((a.what == RequestSelection && a.isError) || (Legible(a) && !agent.hasContext)))
      && (RefusedWith(st, st', a.what, InvalidArguments) <==>
          agent.hasCallback && ((a.what == RequestSelection && !a.isError && !a.hasBody)
            || (a.what != RequestSelection && agent.hasContext && !busy && a.memory && !a.argsMatch)))
      && (RefusedWith(st, st', a.what, Busy) <==> agent.hasCallback && Legible(a) && agent.hasContext && busy)
      && (WasAccepted(st, st') <==>
          agent.hasCallback && Legible(a) && agent.hasContext && !busy && a.memory && (a.what == RequestSelection || a.argsMatch))
  {
    var st1 := Admitted(st, agent, a);
    var st2 := Notify(st1, agent, RequestInd(a.what), Refusal(agent, a, st.pending.Some?) == None);
    RepliesTake(st2, connected, inside);
    assert st.taken + multiset{|st.received|} != st.taken;
  }

  /** The callback of a request is told its method once, with status OK exactly if it was
      accepted, and then it is the pending message. */
  lemma RequestIndicates(st: State, connected: bool, agent: Agent, a: Arrival)
    ensures var st' := Request(st, connected, agent, a, []);
      && st'.indications == st.indications +
           (if agent.hasCallback then [Indication(agent.id, RequestInd(a.what), WasAccepted(st, st'))] else [])
      && st'.pending == (if WasAccepted(st, st') then Some(Message(|st.received|, a.what)) else st.pending)
      && st'.dropped == st.dropped
  {
    RequestOutcome(st, connected, agent, a, []);
  }

  /** The same for an agent of the code as written, whose context is in its cell. */
  lemma WrittenRequestOutcome(w: Written, connected: bool, agent: Agent, a: Arrival, inside: seq<Answer>)
    ensures var st, st' := w.st, WrittenStep(w, connected, RequestEvent(agent, a, inside)).st;
      var busy, context := w.st.pending.Some?, agent.id !in w.cells || w.cells[agent.id] == ContextCell;
      && (RefusedWith(st, st', a.what, NotImplemented) <==>
          !agent.hasCallback || (Legible(a) && context && !busy && !a.memory))
      && (RefusedWith(st, st', a.what, Failed) <==>
          agent.hasCallback && ((a.what == RequestSelection && a.isError) || (Legible(a) && !context)))
      && (RefusedWith(st, st', a.what, InvalidArguments) <==>
          agent.hasCallback && ((a.what == RequestSelection && !a.isError && !a.hasBody)
            || (a.what != RequestSelection && context && !busy && a.memory && !a.argsMatch)))
      && (RefusedWith(st, st', a.what, Busy) <==> agent.hasCallback && Legible(a) && context && busy)
      && (WasAccepted(st, st') <==>
          agent.hasCallback && Legible(a) && context && !busy && a.memory && (a.what == RequestSelection || a.argsMatch))
  {
    RequestOutcome(w.st, connected, Found(w, agent), a, inside);
  }

  /** The cell of an agent after each of its events: the block of an accepted request, null
      after a Cancel or AgentRelease that found a context, and otherwise as before; a block
      is allocated for an accepted request and for one whose arguments cannot be read. */
  lemma WrittenCells(w: Written, connected: bool, e: Event, id: nat)
    ensures var w' := WrittenStep(w, connected, e);
      CellOf(w', id) ==
        if e.RequestEvent? && e.agent.id == id && WasAccepted(w.st, w'.st) then BlockCell(w.next)
        else if (e.CancelEvent? || e.ReleaseEvent?) && e.agent.id == id && e.agent.hasCallback && CellOf(w, id) == ContextCell then NullCell
        else CellOf(w, id)
    ensures var w' := WrittenStep(w, connected, e);
      w'.next == w.next +
        if e.RequestEvent? && (WasAccepted(w.st, w'.st)
                               || (e.arrival.what != RequestSelection && RefusedWith(w.st, w'.st, e.arrival.what, InvalidArguments)))
        then 1 else 0
  {
    if e.RequestEvent? {
      WrittenRequestOutcome(w, connected, e.agent, e.arrival, e.inside);
    }
  }

  // ----- Cancel and AgentRelease -----

  /** With a context the pending message is dropped without a reply, and whatever the
      application answers inside the callback has no effect. */
  lemma WithdrawDrops(st: State, connected: bool, agent: Agent, inside: seq<Answer>)
    requires agent.hasCallback && agent.hasContext
    ensures Step(st, connected, CancelEvent(agent, inside)) ==
            State(None, st.received, st.taken,
                  st.dropped + (if st.pending.Some? then multiset{st.pending.value.serial} else multiset{}),
                  st.sent, st.indications + [Indication(agent.id, CancelInd, true)])
    ensures Step(st, connected, ReleaseEvent(agent, inside)) ==
            State(None, st.received, st.taken,
                  st.dropped + (if st.pending.Some? then multiset{st.pending.value.serial} else multiset{}),
                  st.sent, st.indications + [Indication(agent.id, ReleaseInd, true)])
  {
    NoPendingNoAnswer(Withdrawing(st, agent, CancelInd), connected, inside);
    NoPendingNoAnswer(Withdrawing(st, agent, ReleaseInd), connected, inside);
  }

  /** Without a callback nothing happens; without a context the callback is told an error
      and may answer, and the pending message stays. */
  lemma WithdrawWithoutContext(st: State, connected: bool, agent: Agent, inside: seq<Answer>)
    requires !agent.hasCallback || !agent.hasContext
    ensures var told := st.(indications := st.indications + [Indication(agent.id, StaleInd, false)]);
      && Step(st, connected, CancelEvent(agent, inside)) == Step(st, connected, ReleaseEvent(agent, inside))
      && Step(st, connected, CancelEvent(agent, inside)) == if agent.hasCallback then Replies(told, connected, inside) else st
  {
  }

  /** What Cancel and AgentRelease return themselves. */
  lemma WithdrawReplies(w: Written, agent: Agent)
    ensures WithdrawReply(w, agent, CancelInd) ==
            if !agent.hasCallback then OwnError(NotImplemented)
            else if agent.id in w.cells && w.cells[agent.id] == NullCell then OwnError(Failed)
            else NoReply
    ensures WithdrawReply(w, agent, ReleaseInd) ==
            if !agent.hasCallback then OwnError(NotImplemented)
            else if agent.id in w.cells && w.cells[agent.id] == NullCell then OwnError(Failed)
            else EmptyReturn
  {
  }
}
