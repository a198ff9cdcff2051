/** The modem states of a context over a run of property changes, and how often a modem
    coming alive makes the proxy table be rebuilt. */
module ModemStates {
  import opened Basics

  const POWER_OFF: int := 0
  const AWARE: int := 1
  const ALIVE: int := 2

  /** A change of property `name` to a value, signalled by the proxy of a modem. */
  datatype Change = Change(modem: nat, isModemState: bool, state: int)

  datatype States = States(current: seq<int>, refreshes: nat)

  function Initial(n: nat): States {
    States(seq(n, _ => POWER_OFF), 0)
  }

  predicate WakesUp(before: int, after: int) {
    before == AWARE && after == ALIVE
  }

  function Step(s: States, c: Change): States
    requires c.modem < |s.current|
  {
    if !c.isModemState then s
    else States(s.current[c.modem := c.state],
                s.refreshes + if WakesUp(s.current[c.modem], c.state) then 1 else 0)
  }

  predicate InRange(changes: seq<Change>, n: nat) {
    forall c :: c in changes ==> c.modem < n
  }

  function Run(n: nat, changes: seq<Change>): (s: States)
    requires InRange(changes, n)
    ensures |s.current| == n
  {
    if changes == [] then Initial(n) else Step(Run(n, Front(changes)), Last(changes))
  }

  // ----- what a modem reported, seen by itself -----

  /** All states of modem m in order, from the start. */
  function Trace(changes: seq<Change>, m: nat): (trace: seq<int>)
    ensures trace != []
  {
    if changes == [] then [POWER_OFF]
    else
      var c := Last(changes);
      Trace(Front(changes), m) + if c.isModemState && c.modem == m then [c.state] else []
  }

  /** Adjacent pairs of a trace that go from AWARE to ALIVE. */
  function WakeUps(trace: seq<int>): nat {
    if |trace| < 2 then 0
    else WakeUps(Front(trace)) + if WakesUp(trace[|trace| - 2], trace[|trace| - 1]) then 1 else 0
  }

  function TotalWakeUps(changes: seq<Change>, n: nat): nat {
    if n == 0 then 0 else TotalWakeUps(changes, n - 1) + WakeUps(Trace(changes, n - 1))
  }

  lemma {:induction false} TotalAfter(changes: seq<Change>, n: nat)
    requires changes != []
    ensures var c, before := Last(changes), Front(changes);
      TotalWakeUps(changes, n) == TotalWakeUps(before, n) +
        if c.modem < n then WakeUps(Trace(changes, c.modem)) - WakeUps(Trace(before, c.modem)) else 0
  {
    if n > 0 {
      TotalAfter(changes, n - 1);
      var c := Last(changes);
      assert c.modem != n - 1 ==> Trace(changes, n - 1) == Trace(Front(changes), n - 1);
    }
  }

  lemma WakeUpsAppend(trace: seq<int>, state: int)
    requires trace != []
    ensures WakeUps(trace + [state]) == WakeUps(trace) + if WakesUp(Last(trace), state) then 1 else 0
  {
    assert Front(trace + [state]) == trace;
  }

  /** Over any run each recorded state is the last one its modem reported, and the table was
      refreshed once for every AWARE-to-ALIVE pair in the modems' own traces. */
  lemma {:induction false} RunCountsWakeUps(n: nat, changes: seq<Change>)
    requires InRange(changes, n)
    ensures var s := Run(n, changes);
      && (forall m: nat | m < n :: s.current[m] == Last(Trace(changes, m)))
      && s.refreshes == TotalWakeUps(changes, n)
  {
    if changes == [] {
      NoWakeUps(n);
    } else {
      var c, before := Last(changes), Front(changes);
      RunCountsWakeUps(n, before);
      TotalAfter(changes, n);
      assert c in changes;
      if c.isModemState {
        WakeUpsAppend(Trace(before, c.modem), c.state);
        assert Trace(changes, c.modem) == Trace(before, c.modem) + [c.state];
      } else {
        assert forall m :: Trace(changes, m) == Trace(before, m);
      }
    }
  }

  lemma {:induction false} NoWakeUps(n: nat)
    ensures TotalWakeUps([], n) == 0
  {
    if n > 0 {
      NoWakeUps(n - 1);
    }
  }
}
