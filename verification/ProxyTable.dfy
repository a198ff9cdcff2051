/** The table of D-Bus proxies of a context: opened, refreshed when a modem comes alive,
    searched backwards from a proxy to its modem, and closed, with every reference counted.

    The client keeps one proxy for each (path, interface), so that pair stands for the
    pointer; creating a proxy always yields one. Interface j is entry j of the list in
    `get_mutable_dbus_proxy`; which interfaces are supported does not change in a run. */
module ProxyTable {
  import opened Basics

  const COLUMNS: nat := 16  // DBUS_PROXY_MAX_COUNT

  datatype Key = ManagerKey | ModemKey(path: string, column: nat)
  type Entry = Option<Key>

  /** Row-major, as the array lies in memory: entry (i, j) is at 16 * i + j. */
  type Table = seq<Entry>

  datatype Config = Config(paths: seq<string>, supported: set<nat>)

  function Row(k: nat): nat { k / COLUMNS }
  function Column(k: nat): nat { k % COLUMNS }

  lemma Position(i: nat, j: nat)
    requires j < COLUMNS
    ensures Row(COLUMNS * i + j) == i && Column(COLUMNS * i + j) == j
  {
  }

  const MANAGER: multiset<Entry> := multiset{Some(ManagerKey)}

  /** The references that the non-null entries hold. */
  function Held(t: Table): multiset<Entry> {
    multiset(t)[None := 0]
  }

  lemma HeldUpdate(t: Table, k: nat, e: Entry)
    requires k < |t|
    ensures t[k].Some? ==> t[k] in Held(t)
    ensures Held(t[k := e]) == Held(t) - RefOf(t[k]) + RefOf(e)
  {
    assert t[k] in multiset(t);
    assert multiset(t[k := e]) == multiset(t) - multiset{t[k]} + multiset{e};
  }

  /** base plus what the entries hold, when entry k becomes a proxy just referenced. */
  lemma TakeOne(base: multiset<Entry>, t: Table, k: nat, e: Entry)
    requires k < |t| && t[k] == None && e.Some?
    ensures base + Held(t) + multiset{e} == base + Held(t[k := e])
  {
    HeldUpdate(t, k, e);
  }

  /** ... and when the reference of entry k has just been dropped. */
  lemma DropOne(base: multiset<Entry>, t: Table, k: nat)
    requires k < |t| && t[k].Some?
    ensures t[k] in base + Held(t)
    ensures base + Held(t) - multiset{t[k]} == base + Held(t[k := None])
  {
    HeldUpdate(t, k, None);
  }

  function RefOf(e: Entry): multiset<Entry> {
    if e.Some? then multiset{e} else multiset{}
  }

  function NonNull(t: Table): nat {
    if t == [] then 0 else NonNull(t[..|t| - 1]) + if t[|t| - 1].Some? then 1 else 0
  }

  lemma {:induction false} HeldCount(t: Table)
    ensures |Held(t)| == NonNull(t)
  {
    if t != [] {
      var front, last := t[..|t| - 1], t[|t| - 1];
      HeldCount(front);
      assert t == front + [last];
      assert Held(t) == Held(front) + RefOf(last);
    }
  }

  // ----- what the table of an open context holds -----

  function EntryFor(cfg: Config, k: nat): Entry
    requires Row(k) < |cfg.paths|
  {
    if Column(k) == 0 || Column(k) in cfg.supported then Some(ModemKey(cfg.paths[Row(k)], Column(k))) else None
  }

  /** Each entry is the proxy of its own modem path and interface, null if unsupported. */
  ghost predicate IsOpen(cfg: Config, t: Table) {
    && |t| == COLUMNS * |cfg.paths|
    && forall k :: 0 <= k < |t| ==> t[k] == EntryFor(cfg, k)
  }

  /** The table after `release_mutable_dbus_proxy`: only column 0 is left. */
  function Cleared(t: Table): (c: Table)
    ensures |c| == |t|
    ensures forall k :: 0 <= k < |t| ==> c[k] == if Column(k) == 0 then t[k] else None
  {
    seq(|t|, k requires 0 <= k < |t| => if Column(k) == 0 then t[k] else None)
  }

  // ----- from a proxy back to its modem -----

  /** The row of the first entry from position k on that is the proxy, 0 if there is none. */
  function LookupFrom(t: Table, k: nat, proxy: Key): nat
    requires k <= |t|
    decreases |t| - k
  {
    if k == |t| then 0 else if t[k] == Some(proxy) then Row(k) else LookupFrom(t, k + 1, proxy)
  }

  function Lookup(t: Table, proxy: Entry): nat {
    if proxy == None then 0 else LookupFrom(t, 0, proxy.value)
  }

  lemma {:induction false} LookupInRange(t: Table, k: nat, proxy: Key, n: nat)
    requires k <= |t| == COLUMNS * n && n > 0
    ensures LookupFrom(t, k, proxy) < n
    decreases |t| - k
  {
    if k < |t| {
      LookupInRange(t, k + 1, proxy, n);
    }
  }

  ghost predicate DistinctPaths(cfg: Config) {
    forall i, j :: 0 <= i < j < |cfg.paths| ==> cfg.paths[i] != cfg.paths[j]
  }

  /** Looking up any non-null entry gives the row it is in. */
  ghost predicate LookupInverts(t: Table) {
    forall k :: 0 <= k < |t| && t[k].Some? ==> Lookup(t, t[k]) == Row(k)
  }

  lemma {:induction false} LookupFromFinds(t: Table, k: nat, at: nat, proxy: Key)
    requires k <= at < |t| && t[at] == Some(proxy)
    requires forall l :: k <= l < at ==> t[l] != Some(proxy)
    ensures LookupFrom(t, k, proxy) == Row(at)
    decreases at - k
  {
    if k < at {
      LookupFromFinds(t, k + 1, at, proxy);
    }
  }

  /** The search inverts the table if and only if no two modems share a path. */
  lemma LookupInvertsIffDistinct(cfg: Config, t: Table)
    requires IsOpen(cfg, t)
    ensures LookupInverts(t) <==> DistinctPaths(cfg)
  {
    if DistinctPaths(cfg) {
      forall k | 0 <= k < |t| && t[k].Some? ensures Lookup(t, t[k]) == Row(k) {
        forall l | 0 <= l < k ensures t[l] != t[k] {
          assert t[l] == EntryFor(cfg, l) && t[k] == EntryFor(cfg, k);
        }
        LookupFromFinds(t, 0, k, t[k].value);
      }
    } else {
      var i, j :| 0 <= i < j < |cfg.paths| && cfg.paths[i] == cfg.paths[j];
      var k, l := COLUMNS * i, COLUMNS * j;
      Position(i, 0);
      Position(j, 0);
      assert t[k] == EntryFor(cfg, k) == EntryFor(cfg, l) == t[l];
      assert !(Lookup(t, t[k]) == i && Lookup(t, t[l]) == j);
    }
  }
}
