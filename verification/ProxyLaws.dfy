/** The entries of an open table and the steps of the modem states, spelled out. */
module ProxyLaws {
  import opened Basics
  import opened ProxyTable
  import opened ProxyContext
  import ModemStates

  /** Every entry of an open table: the proxy of its own modem for column 0 and for each
      supported interface, null for the others. */
  lemma OpenEntries(cfg: Config, t: Table, i: nat, j: nat)
    requires IsOpen(cfg, t) && i < |cfg.paths| && j < 16
    ensures |t| == 16 * |cfg.paths| && 16 * i + j < |t|
    ensures t[16 * i + j] == if j == 0 || j in cfg.supported then Some(ModemKey(cfg.paths[i], j)) else None
  {
    Position(i, j);
  }

  /** And only such tables are open. */
  lemma OpenIff(cfg: Config, t: Table)
    ensures IsOpen(cfg, t) <==>
      |t| == 16 * |cfg.paths| && forall i: nat, j: nat | i < |cfg.paths| && j < 16 :: EntryIs(cfg, t, i, j)
  {
    if IsOpen(cfg, t) {
      forall i: nat, j: nat | i < |cfg.paths| && j < 16 ensures EntryIs(cfg, t, i, j) {
        OpenEntries(cfg, t, i, j);
      }
    } else if |t| == 16 * |cfg.paths| {
      var k :| 0 <= k < |t| && t[k] != EntryFor(cfg, k);
      assert k == 16 * Row(k) + Column(k);
      assert !EntryIs(cfg, t, Row(k), Column(k));
    }
  }

  ghost predicate EntryIs(cfg: Config, t: Table, i: nat, j: nat) {
    && 16 * i + j < |t| && i < |cfg.paths|
    && t[16 * i + j] == if j == 0 || j in cfg.supported then Some(ModemKey(cfg.paths[i], j)) else None
  }

  /** The entries of a valid context, and how many references it holds of each proxy. */
  lemma ValidEntries(ctx: Context, i: nat, j: nat)
    requires ctx.Valid() && i < |ctx.cfg.paths| && j < 16
    ensures 16 * i + j < ctx.table.Length
    ensures ctx.table[16 * i + j] == if j == 0 || j in ctx.cfg.supported then Some(ModemKey(ctx.cfg.paths[i], j)) else None
    ensures Some(ManagerKey) in ctx.refs && (ctx.table[16 * i + j].Some? ==> ctx.table[16 * i + j] in ctx.refs)
  {
    OpenEntries(ctx.cfg, ctx.table[..], i, j);
    HeldUpdate(ctx.table[..], 16 * i + j, None);
  }

  /** A null proxy, or one that is in no entry, is taken for modem 0. */
  lemma {:induction false} LookupMisses(t: Table, k: nat, proxy: Key)
    requires k <= |t| && forall l :: k <= l < |t| ==> t[l] != Some(proxy)
    ensures Lookup(t, None) == 0 && LookupFrom(t, k, proxy) == 0
    decreases |t| - k
  {
    if k < |t| {
      LookupMisses(t, k + 1, proxy);
    }
  }

  // ----- modem states -----

  /** A change of the modem state is recorded for its modem alone, and refreshes the table
      exactly if it goes from 1 (aware) to 2 (alive); other changes do nothing. */
  lemma StateStep(s: ModemStates.States, c: ModemStates.Change)
    requires c.modem < |s.current|
    ensures var s' := ModemStates.Step(s, c);
      && s'.current == (if c.isModemState then s.current[c.modem := c.state] else s.current)
      && s'.refreshes == s.refreshes + (if c.isModemState && s.current[c.modem] == 1 && c.state == 2 then 1 else 0)
  {
  }

  /** At the start every modem is in state 0 (power off) and nothing was refreshed. */
  lemma StateStart(n: nat)
    ensures |ModemStates.Run(n, []).current| == n && ModemStates.Run(n, []).refreshes == 0
    ensures forall i :: 0 <= i < n ==> ModemStates.Run(n, []).current[i] == 0
  {
  }

  /** Positions at which a trace goes from 1 to 2, counted from the front. */
  function OneTwo(trace: seq<int>): nat {
    if |trace| < 2 then 0 else (if trace[0] == 1 && trace[1] == 2 then 1 else 0) + OneTwo(trace[1..])
  }

  lemma {:induction false} OneTwoAppend(trace: seq<int>, state: int)
    requires trace != []
    ensures OneTwo(trace + [state]) == OneTwo(trace) + if Last(trace) == 1 && state == 2 then 1 else 0
  {
    if |trace| == 1 {
      assert (trace + [state])[1..] == [state];
    } else {
      OneTwoAppend(trace[1..], state);
      assert (trace + [state])[1..] == trace[1..] + [state];
    }
  }

  /** The wake-ups of a trace are its adjacent pairs 1, 2. */
  lemma {:induction false} WakeUpsAreOneTwo(trace: seq<int>)
    ensures ModemStates.WakeUps(trace) == OneTwo(trace)
  {
    if |trace| >= 2 {
      WakeUpsAreOneTwo(Front(trace));
      OneTwoAppend(Front(trace), Last(trace));
      assert Front(trace) + [Last(trace)] == trace;
    }
  }
}
