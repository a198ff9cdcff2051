/** A context with its proxy table, updated in place. */
module ProxyContext {
  import opened Basics
  import opened ProxyTable
  import ModemStates

  class Context {
    const cfg: Config
    const table: array<Entry>
    const modemState: array<int>
    var refs: multiset<Entry>  // references taken and not yet dropped
    ghost var refreshes: nat

    ghost predicate Shaped()
    {
      table.Length == COLUMNS * |cfg.paths| && modemState.Length == |cfg.paths| > 0
    }

    ghost predicate Valid()
      reads this, table
    {
      && Shaped()
      && IsOpen(cfg, table[..])
      && refs == MANAGER + Held(table[..])
    }

    ghost function States(): ModemStates.States
      reads this, modemState
    {
      ModemStates.States(modemState[..], refreshes)
    }

    /** `g_dbus_proxy_new` */
    method NewProxy(key: Key) returns (e: Entry)
      modifies this`refs
      ensures e == Some(key) && refs == old(refs) + multiset{e}
    {
      e := Some(key);
      refs := refs + multiset{e};
    }

    /** `g_dbus_proxy_unref`: only a reference that is held can be dropped. */
    method Unref(e: Entry)
      requires e.Some? && e in refs
      modifies this`refs
      ensures refs == old(refs) - multiset{e}
    {
      refs := refs - multiset{e};
    }

    /** `get_persistent_dbus_proxy` */
    method GetPersistent()
      requires Shaped() && refs == multiset{} && forall k :: 0 <= k < table.Length ==> table[k] == None
      modifies this`refs, table
      ensures forall k :: 0 <= k < table.Length ==> table[k] == if Column(k) == 0 then EntryFor(cfg, k) else None
      ensures refs == MANAGER + Held(table[..])
    {
      var _ := NewProxy(ManagerKey);
      HeldOfNone(table[..]);
      var i := 0;
      while i < |cfg.paths|
        invariant 0 <= i <= |cfg.paths|
        invariant forall k :: 0 <= k < table.Length ==> table[k] == if Column(k) == 0 && Row(k) < i then EntryFor(cfg, k) else None
        invariant refs == MANAGER + Held(table[..])
      {
        var k := COLUMNS * i;
        ghost var before := table[..];
        Position(i, 0);
        var e := NewProxy(ModemKey(cfg.paths[i], 0));
        TakeOne(MANAGER, before, k, e);
        table[k] := e;
        assert table[..] == before[k := e];
        i := i + 1;
      }
    }

    /** `get_mutable_dbus_proxy`; the entries it overwrites must hold no reference. */
    method GetMutable()
      requires Shaped() && Cleared(table[..]) == table[..] && refs == MANAGER + Held(table[..])
      modifies this`refs, table
      ensures table[..] == Filled(cfg, old(table[..]), table.Length)
      ensures refs == MANAGER + Held(table[..])
    {
      ghost var t0 := table[..];
      var i := 0;
      while i < |cfg.paths|
        invariant 0 <= i <= |cfg.paths|
        invariant table[..] == Filled(cfg, t0, COLUMNS * i)
        invariant refs == MANAGER + Held(table[..])
      {
        FillRow(i, t0);
        i := i + 1;
      }
    }

    method FillRow(i: nat, ghost t0: Table)
      requires Shaped() && i < |cfg.paths| && |t0| == table.Length && Cleared(t0) == t0
      requires table[..] == Filled(cfg, t0, COLUMNS * i) && refs == MANAGER + Held(table[..])
      modifies this`refs, table
      ensures table[..] == Filled(cfg, t0, COLUMNS * (i + 1))
      ensures refs == MANAGER + Held(table[..])
    {
      Position(i, 0);
      FilledNext(cfg, t0, COLUMNS * i);
      var j := 1;
      while j < COLUMNS
        invariant 1 <= j <= COLUMNS
        invariant table[..] == Filled(cfg, t0, COLUMNS * i + j)
        invariant refs == MANAGER + Held(table[..])
      {
        FillOne(i, j, t0);
        j := j + 1;
      }
    }

    method FillOne(i: nat, j: nat, ghost t0: Table)
      requires Shaped() && i < |cfg.paths| && 0 < j < COLUMNS && |t0| == table.Length && Cleared(t0) == t0
      requires table[..] == Filled(cfg, t0, COLUMNS * i + j) && refs == MANAGER + Held(table[..])
      modifies this`refs, table
      ensures table[..] == Filled(cfg, t0, COLUMNS * i + (j + 1))
      ensures refs == MANAGER + Held(table[..])
    {
      var k := COLUMNS * i + j;
      Position(i, j);
      ghost var before := table[..];
      assert before[k] == t0[k] == Cleared(t0)[k] == None;
      FilledNext(cfg, t0, k);
      if j !in cfg.supported {
        table[k] := None;
        assert table[..] == before == before[k := None];
        return;
      }
      var e := NewProxy(ModemKey(cfg.paths[i], j));
      TakeOne(MANAGER, before, k, e);
      table[k] := e;
      assert table[..] == before[k := e];
    }

    /** `release_mutable_dbus_proxy`. held is the table without entries whose reference is
        already gone: none, except while the context is being closed. */
    method ReleaseMutable(ghost base: multiset<Entry>, ghost held: Table)
      requires Shaped() && SameMutable(held, table[..]) && refs == base + Held(held)
      modifies this`refs, table
      ensures table[..] == Cleared(old(table[..]))
      ensures refs == base + Held(Cleared(held))
    {
      ghost var t0, now := table[..], held;
      ReleasedAll(t0);
      ReleasedAll(held);
      var i := 0;
      while i < |cfg.paths|
        invariant 0 <= i <= |cfg.paths|
        invariant table[..] == Released(t0, COLUMNS * i) && now == Released(held, COLUMNS * i)
        invariant refs == base + Held(now)
      {
        SkipPersistent(t0, i);
        SkipPersistent(held, i);
        var j := 1;
        while j < COLUMNS
          invariant 1 <= j <= COLUMNS
          invariant table[..] == Released(t0, COLUMNS * i + j) && now == Released(held, COLUMNS * i + j)
          invariant refs == base + Held(now)
        {
          now := ReleaseOne(i, j, base, t0, held, now);
          j := j + 1;
        }
        i := i + 1;
      }
    }

    method ReleaseOne(i: nat, j: nat, ghost base: multiset<Entry>, ghost t0: Table, ghost held: Table, ghost now: Table)
      returns (ghost now': Table)
      requires Shaped() && i < |cfg.paths| && 0 < j < COLUMNS && |t0| == table.Length && SameMutable(held, t0)
      requires table[..] == Released(t0, COLUMNS * i + j) && now == Released(held, COLUMNS * i + j)
      requires refs == base + Held(now)
      modifies this`refs, table
      ensures table[..] == Released(t0, COLUMNS * i + (j + 1)) && now' == Released(held, COLUMNS * i + (j + 1))
      ensures refs == base + Held(now')
    {
      var k := COLUMNS * i + j;
      Position(i, j);
      ReleasedNext(t0, k);
      ReleasedNext(held, k);
      assert now[k] == held[k] == table[..][k] == table[k];
      now' := now[k := None];
      if table[k] != None {
        DropOne(base, now, k);
        Unref(table[k]);
        table[k] := None;
      } else {
        assert now' == now && table[..][k := None] == table[..];
      }
    }

    /** `release_persistent_dbus_proxy`: the pointers of column 0 stay behind. */
    method ReleasePersistent() returns (ghost held: Table)
      requires Valid()
      modifies this`refs
      ensures held == WithoutPersistent(table[..], |cfg.paths|) && refs == multiset{} + Held(held)
    {
      Unref(Some(ManagerKey));
      held := table[..];
      var i := 0;
      while i < |cfg.paths|
        invariant 0 <= i <= |cfg.paths|
        invariant held == WithoutPersistent(table[..], i)
        invariant refs == multiset{} + Held(held)
      {
        held := ReleaseModem(i, held);
        i := i + 1;
      }
    }

    method ReleaseModem(i: nat, ghost held: Table) returns (ghost held': Table)
      requires Shaped() && i < |cfg.paths| && IsOpen(cfg, table[..])
      requires held == WithoutPersistent(table[..], i) && refs == multiset{} + Held(held)
      modifies this`refs
      ensures held' == WithoutPersistent(table[..], i + 1) && refs == multiset{} + Held(held')
    {
      var k := COLUMNS * i;
      Position(i, 0);
      assert held[k] == table[..][k] == EntryFor(cfg, k);
      held' := held[k := None];
      DropOne(multiset{}, held, k);
      Unref(table[k]);
    }

    /** `tapi_open`, from the point where the client is there */
    constructor (cfg: Config)
      requires |cfg.paths| > 0
      ensures Valid() && fresh(table) && fresh(modemState)
      ensures this.cfg == cfg && States() == ModemStates.Initial(|cfg.paths|)
    {
      this.cfg := cfg;
      table := new Entry[COLUMNS * |cfg.paths|](_ => None);
      modemState := new int[|cfg.paths|](_ => -1);
      refs := multiset{};
      refreshes := 0;
      new;
      assert modemState.Length == |cfg.paths|;
      Open();
    }

    method Open()
      requires Shaped() && refs == multiset{} && refreshes == 0
      requires forall k :: 0 <= k < table.Length ==> table[k] == None
      modifies this`refs, table, modemState
      ensures Valid() && States() == ModemStates.Initial(|cfg.paths|)
    {
      GetPersistent();
      assert Cleared(table[..]) == table[..];
      GetMutable();
      assert IsOpen(cfg, table[..]);
      WatchModems();
    }

    method WatchModems()
      requires Shaped()
      modifies modemState
      ensures modemState[..] == ModemStates.Initial(|cfg.paths|).current
    {
      var i := 0;
      while i < |cfg.paths|
        invariant 0 <= i <= |cfg.paths|
        invariant forall k :: 0 <= k < i ==> modemState[k] == ModemStates.POWER_OFF
      {
        modemState[i] := ModemStates.POWER_OFF;
        i := i + 1;
      }
    }

    /** `get_modem_id_by_proxy` */
    method GetModemIdByProxy(proxy: Entry) returns (id: nat)
      requires Valid()
      ensures id == Lookup(table[..], proxy)
      ensures id < |cfg.paths|
    {
      if proxy == None {
        return 0;
      }
      var i := 0;
      while i < |cfg.paths|
        invariant 0 <= i <= |cfg.paths|
        invariant LookupFrom(table[..], COLUMNS * i, proxy.value) == Lookup(table[..], proxy)
      {
        var j := 0;
        while j < COLUMNS
          invariant 0 <= j <= COLUMNS
          invariant LookupFrom(table[..], COLUMNS * i + j, proxy.value) == Lookup(table[..], proxy)
        {
          if table[COLUMNS * i + j] == proxy {
            Position(i, j);
            return i;
          }
          j := j + 1;
        }
        i := i + 1;
      }
      return 0;
    }

    /** The row that the search finds for the modem proxy of row i. */
    ghost function RowFound(i: nat): nat
      requires Shaped() && i < |cfg.paths|
      reads table
    {
      Lookup(table[..], table[COLUMNS * i])
    }

    /** `on_modem_property_change`, called for the modem proxy of a row: the table and its
        references are the same after a refresh, and only the state of the modem that the
        search finds changes, which is this modem if no two share a path. */
    method OnModemPropertyChange(c: ModemStates.Change)
      requires Valid() && c.modem < |cfg.paths|
      modifies this, table, modemState
      ensures Valid() && table[..] == old(table[..]) && refs == old(refs)
      ensures RowFound(c.modem) < |cfg.paths|
      ensures States() == ModemStates.Step(old(States()), c.(modem := RowFound(c.modem)))
      ensures DistinctPaths(cfg) ==> RowFound(c.modem) == c.modem
    {
      var at := COLUMNS * c.modem;
      Position(c.modem, 0);
      assert table[..][at] == EntryFor(cfg, at);
      LookupInvertsIffDistinct(cfg, table[..]);
      LookupInRange(table[..], 0, table[at].value, |cfg.paths|);
      if !c.isModemState {
        return;
      }
      var id := GetModemIdByProxy(table[at]);
      if modemState[id] == ModemStates.AWARE && c.state == ModemStates.ALIVE {
        Refresh();
        refreshes := refreshes + 1;
      }
      modemState[id] := c.state;
    }

    method Refresh()
      requires Valid()
      modifies this`refs, table
      ensures Valid() && table[..] == old(table[..]) && refs == old(refs)
    {
      ghost var t0 := table[..];
      ReleaseMutable(MANAGER, t0);
      assert Cleared(table[..]) == table[..];
      GetMutable();
      assert table[..] == t0;
    }

    /** `tapi_close` drops every reference that is left. */
    method Close()
      requires Valid()
      modifies this`refs, table
      ensures refs == multiset{}
    {
      ghost var held := ReleasePersistent();
      ReleaseMutable(multiset{}, held);
      HeldOfNone(Cleared(held));
    }

    /** Any run of property changes leaves a valid table and the states of `ModemStates`,
        each change counted for the modem that the search finds. */
    method Serve(changes: seq<ModemStates.Change>)
      requires Valid() && ModemStates.InRange(changes, |cfg.paths|)
      requires States() == ModemStates.Initial(|cfg.paths|)
      modifies this, table, modemState
      ensures Valid() && table[..] == old(table[..]) && refs == old(refs)
      ensures ModemStates.InRange(AsFound(cfg, table[..], changes), |cfg.paths|)
      ensures States() == ModemStates.Run(|cfg.paths|, AsFound(cfg, table[..], changes))
      ensures DistinctPaths(cfg) ==> States() == ModemStates.Run(|cfg.paths|, changes)
    {
      ghost var t := table[..];
      var k := 0;
      assert changes[..0] == [];
      while k < |changes|
        invariant 0 <= k <= |changes|
        invariant Valid() && table[..] == t && refs == old(refs)
        invariant States() == ModemStates.Run(|cfg.paths|, AsFound(cfg, t, changes[..k]))
      {
        assert Front(changes[..k + 1]) == changes[..k];
        assert Front(AsFound(cfg, t, changes[..k + 1])) == AsFound(cfg, t, changes[..k]);
        assert changes[k] in changes;
        OnModemPropertyChange(changes[k]);
        assert RowFound(changes[k].modem) == Lookup(t, t[COLUMNS * changes[k].modem]);
        k := k + 1;
      }
      assert changes[..k] == changes;
      if DistinctPaths(cfg) {
        FoundIsOwn(cfg, t, changes);
      }
    }
  }

  /** The change with the modem that the search finds for its proxy. */
  function Redirected(t: Table, c: ModemStates.Change): ModemStates.Change
    requires COLUMNS * c.modem < |t|
  {
    c.(modem := Lookup(t, t[COLUMNS * c.modem]))
  }

  ghost function AsFound(cfg: Config, t: Table, changes: seq<ModemStates.Change>): (r: seq<ModemStates.Change>)
    requires IsOpen(cfg, t) && ModemStates.InRange(changes, |cfg.paths|)
    ensures |r| == |changes|
    ensures forall k :: 0 <= k < |r| ==> COLUMNS * changes[k].modem < |t| && r[k] == Redirected(t, changes[k])
    ensures ModemStates.InRange(r, |cfg.paths|)
  {
    if changes == [] then []
    else
      var last := Last(changes);
      assert last in changes && forall c :: c in Front(changes) ==> c in changes;
      RowExists(cfg, t, last.modem);
      AsFound(cfg, t, Front(changes)) + [Redirected(t, last)]
  }

  lemma RowExists(cfg: Config, t: Table, i: nat)
    requires IsOpen(cfg, t) && i < |cfg.paths|
    ensures COLUMNS * i < |t| && Lookup(t, t[COLUMNS * i]) < |cfg.paths|
    ensures DistinctPaths(cfg) ==> Lookup(t, t[COLUMNS * i]) == i
  {
    Position(i, 0);
    assert t[COLUMNS * i] == EntryFor(cfg, COLUMNS * i);
    LookupInRange(t, 0, t[COLUMNS * i].value, |cfg.paths|);
    LookupInvertsIffDistinct(cfg, t);
  }

  lemma FoundIsOwn(cfg: Config, t: Table, changes: seq<ModemStates.Change>)
    requires IsOpen(cfg, t) && ModemStates.InRange(changes, |cfg.paths|) && DistinctPaths(cfg)
    ensures AsFound(cfg, t, changes) == changes
  {
    forall k | 0 <= k < |changes| ensures AsFound(cfg, t, changes)[k] == changes[k] {
      assert changes[k] in changes;
      RowExists(cfg, t, changes[k].modem);
    }
  }

  /** References are the non-null entries plus the manager, in number as well. */
  lemma ReferencesCounted(cfg: Config, t: Table)
    requires IsOpen(cfg, t)
    ensures |MANAGER + Held(t)| == 1 + NonNull(t)
  {
    HeldCount(t);
  }

  lemma HeldOfNone(t: Table)
    requires forall k :: 0 <= k < |t| ==> t[k] == None
    ensures Held(t) == multiset{}
  {
    forall e ensures Held(t)[e] == 0 {
      assert e.Some? ==> e !in t;
    }
  }

  /** A table of which the columns from 1 on are filled below position n. */
  ghost function Filled(cfg: Config, t: Table, n: nat): (f: Table)
    requires n <= |t| <= COLUMNS * |cfg.paths|
    ensures |f| == |t|
    ensures forall k :: 0 <= k < |t| ==> f[k] == if Column(k) != 0 && k < n then EntryFor(cfg, k) else t[k]
  {
    seq(|t|, k requires 0 <= k < |t| => if Column(k) != 0 && k < n then EntryFor(cfg, k) else t[k])
  }

  lemma FilledNext(cfg: Config, t: Table, n: nat)
    requires n < |t| <= COLUMNS * |cfg.paths|
    ensures Filled(cfg, t, n + 1) == if Column(n) == 0 then Filled(cfg, t, n) else Filled(cfg, t, n)[n := EntryFor(cfg, n)]
  {
  }

  /** A table of which the columns from 1 on are cleared below position n. */
  ghost function Released(t: Table, n: nat): (r: Table)
    requires n <= |t|
    ensures |r| == |t|
    ensures forall k :: 0 <= k < |t| ==> r[k] == if Column(k) != 0 && k < n then None else t[k]
  {
    seq(|t|, k requires 0 <= k < |t| => if Column(k) != 0 && k < n then None else t[k])
  }

  ghost predicate SameMutable(t: Table, u: Table) {
    |t| == |u| && forall k :: 0 <= k < |t| && Column(k) != 0 ==> t[k] == u[k]
  }

  lemma ReleasedNext(t: Table, n: nat)
    requires n < |t|
    ensures Released(t, n + 1) == if Column(n) == 0 then Released(t, n) else Released(t, n)[n := None]
  {
  }

  lemma SkipPersistent(t: Table, i: nat)
    requires COLUMNS * i + 1 <= |t|
    ensures Released(t, COLUMNS * i + 1) == Released(t, COLUMNS * i)
  {
    Position(i, 0);
    ReleasedNext(t, COLUMNS * i);
  }

  lemma ReleasedAll(t: Table)
    ensures Released(t, 0) == t && Released(t, |t|) == Cleared(t)
  {
  }

  /** A table of which column 0 is taken out in the first n rows. */
  ghost function WithoutPersistent(t: Table, n: nat): (r: Table)
    ensures |r| == |t|
    ensures forall k :: 0 <= k < |t| ==> r[k] == if Column(k) == 0 && Row(k) < n then None else t[k]
  {
    seq(|t|, k requires 0 <= k < |t| => if Column(k) == 0 && Row(k) < n then None else t[k])
  }
}
