/** Replies carry the arguments that the method table declares, if and only if each answer
    that is sent uses a function whose reply fits the pending method. */
module StkSignatures {
  import opened Basics
  import opened StkAgent
  import opened StkAsWritten

  /** The method of the last accepted indication, which the application saw in its callback. */
  function LastAccepted(indications: seq<Indication>): Option<Method> {
    if indications == [] then None
    else
      var last := indications[|indications| - 1];
      if last.ok && last.id.RequestInd? then Some(last.id.what)
      else LastAccepted(indications[..|indications| - 1])
  }

  /** The application answers with the function meant for the last accepted indication. */
  predicate Matches(st: State, a: Answer) {
    LastAccepted(st.indications) == Some(a.fn)
  }

  predicate MatchesInside(st: State, answers: seq<Answer>) {
    forall a | a in answers :: Matches(st, a)
  }

  /** The state in which the callback of an event runs. */
  function AtCallback(st: State, e: Event): State {
    match e
    case RequestEvent(agent, a, _) =>
      Notify(Admitted(st, agent, a), agent, RequestInd(a.what), Refusal(agent, a, st.pending.Some?) == None)
    case AnswerEvent(_) => st
    case CancelEvent(agent, _) => Withdrawing(st, agent, CancelInd)
    case ReleaseEvent(agent, _) => Withdrawing(st, agent, ReleaseInd)
  }

  predicate Disciplined(st: State, e: Event) {
    match e
    case AnswerEvent(a) => Matches(st, a)
    case _ => e.agent.hasCallback ==> MatchesInside(AtCallback(st, e), e.inside)
  }

  predicate DisciplinedRun(st: State, connected: bool, events: seq<Event>)
    decreases events
  {
    events == [] || (Disciplined(st, events[0]) && DisciplinedRun(Step(st, connected, events[0]), connected, events[1..]))
  }

  /** The message was answered with what the method table declares, or with an error. */
  predicate Conforms(s: Sent) {
    s.body.MethodReturn? ==> Signature(s.body.args) == DeclaredReply(s.to.what)
  }

  ghost predicate SentConform(st: State) {
    forall i | 0 <= i < |st.sent| :: Conforms(st.sent[i])
  }

  ghost predicate AllConform(st: State) {
    && (st.pending.Some? ==> LastAccepted(st.indications) == Some(st.pending.value.what))
    && SentConform(st)
  }

  /** Each public function builds the reply its own method declares. */
  lemma AnswerSignature(a: Answer)
    ensures AnswerBody(a).MethodReturn? ==> Signature(AnswerBody(a).args) == DeclaredReply(a.fn)
  {
  }

  lemma LastAcceptedNotify(st: State, agent: Agent, id: MsgId, ok: bool)
    ensures LastAccepted(Notify(st, agent, id, ok).indications) ==
            if ok && id.RequestInd? then Some(id.what) else LastAccepted(st.indications)
  {
    var inds := st.indications;
    assert (inds + [Indication(agent.id, id, ok)])[..|inds|] == inds;
  }

  lemma {:induction false} RepliesConform(st: State, connected: bool, answers: seq<Answer>)
    requires AllConform(st) && MatchesInside(st, answers)
    ensures AllConform(Replies(st, connected, answers))
    ensures Replies(st, connected, answers).indications == st.indications
    decreases answers
  {
    if answers != [] {
      var a := answers[0];
      assert Matches(st, a);
      AnswerSignature(a);
      var st' := Reply(st, connected, a);
      assert AllConform(st');
      forall b | b in answers[1..] ensures Matches(st', b) {
        assert b in answers && Matches(st, b);
      }
      RepliesConform(st', connected, answers[1..]);
    }
  }

  lemma StepConforms(st: State, connected: bool, e: Event)
    requires AllConform(st) && Disciplined(st, e)
    ensures AllConform(Step(st, connected, e))
  {
    match e
    case AnswerEvent(a) => RepliesConform(st, connected, [a]);
      assert Replies(st, connected, [a]) == Reply(st, connected, a) by {
        assert [a][1..] == [];
      }
    case RequestEvent(agent, a, inside) =>
      LastAcceptedNotify(Admitted(st, agent, a), agent, RequestInd(a.what), Refusal(agent, a, st.pending.Some?) == None);
      if agent.hasCallback {
        RepliesConform(AtCallback(st, e), connected, inside);
      }
    case CancelEvent(agent, inside) => WithdrawConforms(st, connected, agent, CancelInd, inside);
    case ReleaseEvent(agent, inside) => WithdrawConforms(st, connected, agent, ReleaseInd, inside);
  }

  lemma WithdrawConforms(st: State, connected: bool, agent: Agent, id: MsgId, inside: seq<Answer>)
    requires AllConform(st) && !id.RequestInd?
    requires agent.hasCallback ==> MatchesInside(Withdrawing(st, agent, id), inside)
    ensures AllConform(Withdraw(st, connected, agent, id, inside))
  {
    if agent.hasCallback {
      LastAcceptedNotify(DropPending(st), agent, id, true);
      LastAcceptedNotify(st, agent, StaleInd, false);
      RepliesConform(Withdrawing(st, agent, id), connected, inside);
    }
  }

  // ----- exactly which runs conform -----

  /** An answer that is sent as a method return uses a function with the reply that the
      pending method declares. */
  predicate Fits(st: State, connected: bool, a: Answer) {
    (connected && st.pending.Some? && a.built && AnswerBody(a).MethodReturn?) ==>
      DeclaredReply(a.fn) == DeclaredReply(st.pending.value.what)
  }

  predicate AllFit(st: State, connected: bool, answers: seq<Answer>)
    decreases answers
  {
    answers == [] || (Fits(st, connected, answers[0]) && AllFit(Reply(st, connected, answers[0]), connected, answers[1..]))
  }

  predicate EventFits(st: State, connected: bool, e: Event) {
    match e
    case AnswerEvent(a) => Fits(st, connected, a)
    case _ => e.agent.hasCallback ==> AllFit(AtCallback(st, e), connected, e.inside)
  }

  predicate RunFits(st: State, connected: bool, events: seq<Event>)
    decreases events
  {
    events == [] || (EventFits(st, connected, events[0]) && RunFits(Step(st, connected, events[0]), connected, events[1..]))
  }

  lemma SendConforms(st: State, to: Message, body: Body)
    ensures SentConform(Send(st, to, body)) <==> SentConform(st) && Conforms(Sent(to, body))
  {
    var st' := Send(st, to, body);
    assert forall i | 0 <= i < |st.sent| :: st'.sent[i] == st.sent[i];
    assert st'.sent[|st.sent|] == Sent(to, body);
  }

  lemma ReplyConformsIff(st: State, connected: bool, a: Answer)
    ensures SentConform(Reply(st, connected, a)) <==> SentConform(st) && Fits(st, connected, a)
  {
    if connected && st.pending.Some? && a.built {
      AnswerSignature(a);
      SendConforms(st, st.pending.value, AnswerBody(a));
    }
  }

  lemma {:induction false} RepliesConformIff(st: State, connected: bool, answers: seq<Answer>)
    ensures SentConform(Replies(st, connected, answers)) <==> SentConform(st) && AllFit(st, connected, answers)
    decreases answers
  {
    if answers != [] {
      ReplyConformsIff(st, connected, answers[0]);
      RepliesConformIff(Reply(st, connected, answers[0]), connected, answers[1..]);
    }
  }

  lemma StepConformsIff(st: State, connected: bool, e: Event)
    ensures SentConform(Step(st, connected, e)) <==> SentConform(st) && EventFits(st, connected, e)
  {
    match e
    case AnswerEvent(a) => ReplyConformsIff(st, connected, a);
    case RequestEvent(agent, a, inside) =>
      RepliesConformIff(AtCallback(st, e), connected, inside);
      var st2 := if agent.hasCallback then Replies(AtCallback(st, e), connected, inside) else Admitted(st, agent, a);
      var refusal := Refusal(agent, a, st.pending.Some?);
      if refusal.Some? {
        SendConforms(st2, Message(|st.received|, a.what), ErrorReply(refusal.value));
      }
    case CancelEvent(agent, inside) => RepliesConformIff(AtCallback(st, e), connected, inside);
    case ReleaseEvent(agent, inside) => RepliesConformIff(AtCallback(st, e), connected, inside);
  }

  /** All replies of a run conform if and only if those sent before do and every answer that
      is sent fits the method pending at that moment. */
  lemma {:induction false} RunConformsIff(st: State, connected: bool, events: seq<Event>)
    ensures SentConform(Run(st, connected, events)) <==> SentConform(st) && RunFits(st, connected, events)
    decreases events
  {
    if events != [] {
      StepConformsIff(st, connected, events[0]);
      RunConformsIff(Step(st, connected, events[0]), connected, events[1..]);
    }
  }

  /** The same for the code with its `ar->data` cells, as long as it has a meaning. */
  lemma WrittenRunConformsIff(connected: bool, events: seq<Event>)
    requires WrittenRun(connected, events).Some?
    ensures SentConform(WrittenRun(connected, events).value.st) <==> RunFits(INITIAL, connected, UntilWithdrawn(events))
  {
    DefinedIffNoneAfterAccepted(connected, events);
    RunConformsIff(INITIAL, connected, UntilWithdrawn(events));
  }

  /** An application that answers with the function meant for the last accepted indication
      always fits. */
  lemma DisciplinedRunFits(st: State, connected: bool, events: seq<Event>)
    requires AllConform(st) && DisciplinedRun(st, connected, events)
    ensures RunFits(st, connected, events)
  {
    RunConforms(st, connected, events);
    RunConformsIff(st, connected, events);
  }

  /** In every run of an application that answers with the matching function, each method
      return on the bus carries exactly the arguments its method declares. */
  lemma {:induction false} RunConforms(st: State, connected: bool, events: seq<Event>)
    requires AllConform(st) && DisciplinedRun(st, connected, events)
    ensures AllConform(Run(st, connected, events))
    decreases events
  {
    if events != [] {
      StepConforms(st, connected, events[0]);
      RunConforms(Step(st, connected, events[0]), connected, events[1..]);
    }
  }

  /** An accepted request, answered positively with some function. */
  function AnsweredWith(what: Method, fn: Method): seq<Event> {
    [RequestEvent(Agent(0, true, true), Arrival(what, false, true, true, true), []),
     AnswerEvent(Answer(fn, OP_CODE_CONFIRM_POSITIVE, "1", 1, true))]
  }

  /** Without the discipline the replies conform exactly when the two methods declare the
      same reply: a key answer fits a request for digits, but not a confirmation. */
  lemma AnsweredWithConformsIff(what: Method, fn: Method)
    ensures SentConform(Run(INITIAL, true, AnsweredWith(what, fn))) <==> DeclaredReply(fn) == DeclaredReply(what)
    ensures DisciplinedRun(INITIAL, true, AnsweredWith(what, fn)) <==> fn == what
  {
    var events := AnsweredWith(what, fn);
    var request, answer := events[0], events[1];
    var st := Step(INITIAL, true, request);
    assert events[1..] == [answer] && [answer][1..] == [];
    RunConformsIff(INITIAL, true, events);
    assert st.pending == Some(Message(0, what));
    LastAcceptedNotify(Admitted(INITIAL, request.agent, request.arrival), request.agent, RequestInd(what), true);
    assert RunFits(INITIAL, true, events) <==> RunFits(st, true, [answer]);
    assert RunFits(st, true, [answer]) <==> Fits(st, true, answer.answer);
    assert DisciplinedRun(INITIAL, true, events) <==> DisciplinedRun(st, true, [answer]);
    assert DisciplinedRun(st, true, [answer]) <==> Matches(st, answer.answer);
  }
}
