/** The list of data calls (`data_connection_list_query_done`): a context block with a
    settings block and up to two address blocks is allocated for each entry, inactive ones
    are freed at once, at most ten active ones are handed to the callback and then freed. */
module DataContexts {
  import opened Basics
  import IpSettings

  const MAX_APN_DOMAIN_LENGTH: nat := 128
  const MAX_DATA_CALL_LIST_SIZE: nat := 10

  // ----- messages and the contexts they describe -----

  datatype TextField = Name | AccessPointName | Username | Password | MessageProxy | MessageCenter

  /** Strings that a table turns into a number. */
  datatype EnumField = Type | Protocol | AuthenticationMethod

  function Converted(field: EnumField, text: string): int {
    match field
    case Type =>
      if text == "internet" then 1
      else if text == "hipri" then 2
      else if text == "supl" then 3
      else if text == "mms" then 4
      else if text == "wap" then 5
      else if text == "ims" then 6
      else if text == "emergency" then 7
      else 0
    case Protocol => if text == "IPV6" then 1 else if text == "IPV4V6" then 2 else 0
    case AuthenticationMethod => if text == "chap" then 0 else if text == "pap" then 1 else 2
  }

  /** A settings value is None when it is no dictionary. */
  datatype Prop =
    | ActiveProp(on: bool)
    | TextProp(text: TextField, value: string)
    | EnumProp(enumerated: EnumField, value: string)
    | SettingsProp(settings: Option<seq<IpSettings.Prop>>)
    | Ipv6SettingsProp(settings: Option<seq<IpSettings.Prop>>)
    | OtherProp

  datatype Entry = Entry(path: string, props: seq<Prop>)
  datatype Message = BusError | WrongSignature | NoBody | List(entries: seq<Entry>)

  datatype Data = Data(path: string, active: bool, texts: map<TextField, string>, enums: map<EnumField, int>)
  datatype View = View(data: Data, ipv4: Option<IpSettings.Ip>, ipv6: Option<IpSettings.Ip>)

  function Ip(settings: Option<seq<IpSettings.Prop>>): IpSettings.Ip {
    if settings.Some? then IpSettings.Parsed(settings.value) else IpSettings.EMPTY_IP
  }

  function DataStep(d: Data, p: Prop): Data {
    match p
    case ActiveProp(on) => d.(active := on)
    case TextProp(text, value) => if |value| <= MAX_APN_DOMAIN_LENGTH then d.(texts := d.texts[text := value]) else d
    case EnumProp(enumerated, value) => d.(enums := d.enums[enumerated := Converted(enumerated, value)])
    case SettingsProp(_) => d
    case Ipv6SettingsProp(_) => d
    case OtherProp => d
  }

  function Blank(path: string): Data {
    Data(path, false, map[], map[])
  }

  function DataOf(path: string, props: seq<Prop>): Data {
    if props == [] then Blank(path) else DataStep(DataOf(path, Front(props)), Last(props))
  }

  /** The last value of a settings key, if there is one. */
  function LastSettings(props: seq<Prop>, six: bool): Option<IpSettings.Ip> {
    if props == [] then None
    else
      var p := Last(props);
      if (if six then p.Ipv6SettingsProp? else p.SettingsProp?) then Some(Ip(p.settings))
      else LastSettings(Front(props), six)
  }

  /** What an entry says, without any heap. */
  function Described(e: Entry): View {
    View(DataOf(e.path, e.props), LastSettings(e.props, false), LastSettings(e.props, true))
  }

  predicate IsActive(e: Entry) {
    DataOf(e.path, e.props).active
  }

  /** The first n active contexts in message order. */
  function FirstActive(entries: seq<Entry>, n: nat): (views: seq<View>)
    ensures |views| <= n
  {
    if entries == [] || n == 0 then []
    else if IsActive(entries[0]) then [Described(entries[0])] + FirstActive(entries[1..], n - 1)
    else FirstActive(entries[1..], n)
  }

  /** The entries that are looked at: up to and with the one that fills the list. */
  function Visited(entries: seq<Entry>, n: nat): seq<Entry> {
    if entries == [] || n == 0 then []
    else [entries[0]] + Visited(entries[1..], if IsActive(entries[0]) then n - 1 else n)
  }

  // ----- the heap -----

  /** The block of the k-th allocation is k; `fails` names the allocations that fail, and
      lost collects live blocks whose only pointer was overwritten. */
  datatype Mem = Mem(live: set<nat>, tries: nat, lost: set<nat>)

  function Malloc(m: Mem, fails: set<nat>): (r: (Mem, Option<nat>))
    ensures r.1.Some? <==> m.tries !in fails
  {
    if m.tries in fails then (m.(tries := m.tries + 1), None)
    else (m.(live := m.live + {m.tries}, tries := m.tries + 1), Some(m.tries))
  }

  function FreeAll(m: Mem, blocks: set<nat>): Mem {
    m.(live := m.live - blocks)
  }

  datatype Sub = Sub(block: nat, ip: IpSettings.Ip)

  /** A context block with its settings block and the address blocks it points to. */
  datatype Dc = Dc(block: nat, settings: nat, ipv4: Option<Sub>, ipv6: Option<Sub>, data: Data)

  function One(s: Option<Sub>): set<nat> {
    if s.Some? then {s.value.block} else {}
  }

  function Owned(dc: Dc): set<nat> {
    {dc.block, dc.settings} + One(dc.ipv4) + One(dc.ipv6)
  }

  function IpOf(s: Option<Sub>): Option<IpSettings.Ip> {
    if s.Some? then Some(s.value.ip) else None
  }

  function ViewOf(dc: Dc): View {
    View(dc.data, IpOf(dc.ipv4), IpOf(dc.ipv6))
  }

  function Views(dcs: seq<Dc>): (views: seq<View>)
    ensures |views| == |dcs|
  {
    if dcs == [] then [] else Views(Front(dcs)) + [ViewOf(Last(dcs))]
  }

  /** A new address block; the pointer to an earlier one is overwritten either way. */
  function Replace(m: Mem, fails: set<nat>, was: Option<Sub>, ip: IpSettings.Ip): (Mem, Option<Sub>) {
    var (m', block) := Malloc(m, fails);
    (m'.(lost := m.lost + One(was)), if block.Some? then Some(Sub(block.value, ip)) else None)
  }

  /** `update_data_context` */
  function PropStep(m: Mem, fails: set<nat>, dc: Dc, p: Prop): (Mem, Dc) {
    match p
    case SettingsProp(settings) =>
      var (m', sub) := Replace(m, fails, dc.ipv4, Ip(settings));
      (m', dc.(ipv4 := sub))
    case Ipv6SettingsProp(settings) =>
      var (m', sub) := Replace(m, fails, dc.ipv6, Ip(settings));
      (m', dc.(ipv6 := sub))
    case _ => (m, dc.(data := DataStep(dc.data, p)))
  }

  /** `update_data_contexts` */
  function Props(m: Mem, fails: set<nat>, dc: Dc, props: seq<Prop>): (Mem, Dc) {
    if props == [] then (m, dc)
    else
      var (m', dc') := Props(m, fails, dc, Front(props));
      PropStep(m', fails, dc', Last(props))
  }

  /** The two blocks of a context, or None when one of them could not be had. */
  function New(m: Mem, fails: set<nat>, path: string): (Mem, Option<Dc>) {
    var (m1, block) := Malloc(m, fails);
    if block == None then (m1, None)
    else
      var (m2, settings) := Malloc(m1, fails);
      if settings == None then (FreeAll(m2, {block.value}), None)
      else (m2, Some(Dc(block.value, settings.value, None, None, Blank(path))))
  }

  /** One turn of the loop after its two allocations. */
  function Keep(m: Mem, fails: set<nat>, dc: Dc, props: seq<Prop>, dcs: seq<Dc>): (Mem, seq<Dc>) {
    var (m', dc') := Props(m, fails, dc, props);
    if dc'.data.active then (m', dcs + [dc']) else (FreeAll(m', Owned(dc')), dcs)
  }

  /** One turn of the loop; None if it breaks because a block cannot be had. */
  function Turn(m: Mem, fails: set<nat>, e: Entry, dcs: seq<Dc>): (Mem, Option<seq<Dc>>) {
    var (m1, dc) := New(m, fails, e.path);
    if dc == None then (m1, None)
    else
      var (m2, dcs') := Keep(m1, fails, dc.value, e.props, dcs);
      (m2, Some(dcs'))
  }

  function DecodeList(m: Mem, fails: set<nat>, entries: seq<Entry>, dcs: seq<Dc>): (Mem, seq<Dc>)
    decreases entries
  {
    if entries == [] || |dcs| >= MAX_DATA_CALL_LIST_SIZE then (m, dcs)
    else
      var (m', next) := Turn(m, fails, entries[0], dcs);
      if next == None then (m', dcs) else DecodeList(m', fails, entries[1..], next.value)
  }

  function FreeList(m: Mem, dcs: seq<Dc>): Mem
    decreases |dcs|
  {
    if dcs == [] then m else FreeList(FreeAll(m, Owned(Last(dcs))), Front(dcs))
  }

  /** What the callback is given; on an error `ar->data` is not set. */
  datatype Seen = Seen(status: int, contexts: seq<View>)

  /** ready tells that the handler, its result and its callback are there. */
  function QueryDone(m: Mem, fails: set<nat>, ready: bool, message: Message): (Mem, Option<Seen>) {
    if !ready then (m, None)
    else if !message.List? then (m, Some(Seen(ERROR, [])))
    else
      var (m', dcs) := DecodeList(m, fails, message.entries, []);
      (FreeList(m', dcs), Some(Seen(OK, Views(dcs))))
  }

  // ----- ownership -----

  ghost predicate SoundDc(dc: Dc) {
    && dc.block != dc.settings
    && {dc.block, dc.settings} !! One(dc.ipv4) !! One(dc.ipv6)
  }

  ghost function AllOwned(dcs: seq<Dc>): set<nat> {
    if dcs == [] then {} else AllOwned(Front(dcs)) + Owned(Last(dcs))
  }

  ghost predicate SoundList(dcs: seq<Dc>) {
    dcs == [] || (SoundList(Front(dcs)) && SoundDc(Last(dcs)) && Owned(Last(dcs)) !! AllOwned(Front(dcs)))
  }

  /** The heap is split into what was there before, what is lost, and what is owned. */
  ghost predicate Parts(m: Mem, base: set<nat>, owned: set<nat>) {
    && (forall b | b in m.live :: b < m.tries)
    && m.live == base + m.lost + owned
    && base !! m.lost !! owned
  }

  ghost predicate Sound(m: Mem, base: set<nat>, dcs: seq<Dc>) {
    Parts(m, base, AllOwned(dcs)) && SoundList(dcs)
  }

  ghost predicate Holds(m: Mem, base: set<nat>, dcs: seq<Dc>, dc: Dc) {
    && SoundList(dcs) && SoundDc(dc)
    && Owned(dc) !! AllOwned(dcs)
    && Parts(m, base, AllOwned(dcs) + Owned(dc))
  }

  lemma HoldsAsLast(m: Mem, base: set<nat>, dcs: seq<Dc>, dc: Dc)
    ensures Holds(m, base, dcs, dc) <==> Sound(m, base, dcs + [dc])
    ensures Views(dcs + [dc]) == Views(dcs) + [ViewOf(dc)]
  {
    assert Front(dcs + [dc]) == dcs && Last(dcs + [dc]) == dc;
  }

  lemma NewKeeps(m: Mem, fails: set<nat>, path: string, base: set<nat>, dcs: seq<Dc>)
    requires Sound(m, base, dcs)
    ensures var (m', dc) := New(m, fails, path);
      && m'.lost == m.lost
      && (if dc.Some? then Holds(m', base, dcs, dc.value) else Sound(m', base, dcs))
      && (fails == {} ==> dc.Some?)
  {
    assert m.tries !in m.live && m.tries + 1 !in m.live;
    var (m1, block) := Malloc(m, fails);
    if block.Some? {
      var (m2, settings) := Malloc(m1, fails);
      if settings == None {
        assert FreeAll(m2, {block.value}).live == m.live;
      }
    }
  }

  lemma ReplaceKeeps(m: Mem, fails: set<nat>, base: set<nat>, others: set<nat>, was: Option<Sub>, ip: IpSettings.Ip)
    requires Parts(m, base, others + One(was)) && others !! One(was)
    ensures var (m', sub) := Replace(m, fails, was, ip);
      && Parts(m', base, others + One(sub)) && others !! One(sub)
      && m'.lost == m.lost + One(was)
  {
    assert m.tries !in m.live;
  }

  lemma PropKeeps(m: Mem, fails: set<nat>, base: set<nat>, dcs: seq<Dc>, dc: Dc, p: Prop)
    requires Holds(m, base, dcs, dc)
    ensures var (m', dc') := PropStep(m, fails, dc, p);
      && Holds(m', base, dcs, dc')
      && m'.lost == m.lost + (if p.SettingsProp? then One(dc.ipv4) else if p.Ipv6SettingsProp? then One(dc.ipv6) else {})
  {
    var dc' := PropStep(m, fails, dc, p).1;
    if p.SettingsProp? {
      var others := AllOwned(dcs) + {dc.block, dc.settings} + One(dc.ipv6);
      assert AllOwned(dcs) + Owned(dc) == others + One(dc.ipv4);
      ReplaceKeeps(m, fails, base, others, dc.ipv4, Ip(p.settings));
      assert AllOwned(dcs) + Owned(dc') == others + One(dc'.ipv4);
    } else if p.Ipv6SettingsProp? {
      var others := AllOwned(dcs) + {dc.block, dc.settings} + One(dc.ipv4);
      assert AllOwned(dcs) + Owned(dc) == others + One(dc.ipv6);
      ReplaceKeeps(m, fails, base, others, dc.ipv6, Ip(p.settings));
      assert AllOwned(dcs) + Owned(dc') == others + One(dc'.ipv6);
    }
  }

  lemma {:induction false} PropsKeep(m: Mem, fails: set<nat>, base: set<nat>, dcs: seq<Dc>, dc: Dc, props: seq<Prop>)
    requires Holds(m, base, dcs, dc)
    ensures Holds(Props(m, fails, dc, props).0, base, dcs, Props(m, fails, dc, props).1)
  {
    if props != [] {
      PropsKeep(m, fails, base, dcs, dc, Front(props));
      var (m', dc') := Props(m, fails, dc, Front(props));
      PropKeeps(m', fails, base, dcs, dc', Last(props));
    }
  }

  lemma FreeKeeps(m: Mem, base: set<nat>, dcs: seq<Dc>, dc: Dc)
    requires Holds(m, base, dcs, dc)
    ensures Owned(dc) <= m.live
    ensures Sound(FreeAll(m, Owned(dc)), base, dcs)
  {
  }

  lemma KeepKeeps(m: Mem, fails: set<nat>, base: set<nat>, dcs: seq<Dc>, dc: Dc, props: seq<Prop>)
    requires Holds(m, base, dcs, dc)
    ensures var (m', dcs') := Keep(m, fails, dc, props, dcs);
      Sound(m', base, dcs') && m'.lost == Props(m, fails, dc, props).0.lost
  {
    PropsKeep(m, fails, base, dcs, dc, props);
    var (m', dc') := Props(m, fails, dc, props);
    HoldsAsLast(m', base, dcs, dc');
    FreeKeeps(m', base, dcs, dc');
  }

  lemma TurnKeeps(m: Mem, fails: set<nat>, e: Entry, base: set<nat>, dcs: seq<Dc>)
    requires Sound(m, base, dcs)
    ensures var (m', next) := Turn(m, fails, e, dcs); Sound(m', base, if next.Some? then next.value else dcs)
  {
    NewKeeps(m, fails, e.path, base, dcs);
    var (m1, dc) := New(m, fails, e.path);
    if dc.Some? {
      KeepKeeps(m1, fails, base, dcs, dc.value, e.props);
    }
  }

  lemma {:induction false} DecodeListKeeps(m: Mem, fails: set<nat>, entries: seq<Entry>, base: set<nat>, dcs: seq<Dc>)
    requires Sound(m, base, dcs)
    ensures var (m', dcs') := DecodeList(m, fails, entries, dcs); Sound(m', base, dcs')
    decreases entries
  {
    if entries != [] && |dcs| < MAX_DATA_CALL_LIST_SIZE {
      TurnKeeps(m, fails, entries[0], base, dcs);
      var (m', next) := Turn(m, fails, entries[0], dcs);
      if next.Some? {
        DecodeListKeeps(m', fails, entries[1..], base, next.value);
      }
    }
  }

  lemma {:induction false} FreeListKeeps(m: Mem, base: set<nat>, dcs: seq<Dc>)
    requires Sound(m, base, dcs)
    ensures Sound(FreeList(m, dcs), base, [])
    ensures FreeList(m, dcs).lost == m.lost
    decreases |dcs|
  {
    if dcs != [] {
      assert Front(dcs) + [Last(dcs)] == dcs;
      HoldsAsLast(m, base, Front(dcs), Last(dcs));
      FreeKeeps(m, base, Front(dcs), Last(dcs));
      FreeListKeeps(FreeAll(m, Owned(Last(dcs))), base, Front(dcs));
    }
  }

  /** Whatever fails, the query leaves what was on the heap and the blocks it lost. */
  lemma HeapAfter(m: Mem, fails: set<nat>, ready: bool, message: Message)
    requires Parts(m, m.live, {}) && m.lost == {}
    ensures var m' := QueryDone(m, fails, ready, message).0;
      Parts(m', m.live, {}) && m'.live == m.live + m'.lost && m.live !! m'.lost
  {
    if ready && message.List? {
      DecodeListKeeps(m, fails, message.entries, m.live, []);
      var (m', dcs) := DecodeList(m, fails, message.entries, []);
      FreeListKeeps(m', m.live, dcs);
    }
  }

  // ----- when nothing is lost -----

  predicate IsKey(p: Prop, six: bool) {
    if six then p.Ipv6SettingsProp? else p.SettingsProp?
  }

  function Keys(props: seq<Prop>, six: bool): nat {
    if props == [] then 0 else Keys(Front(props), six) + if IsKey(Last(props), six) then 1 else 0
  }

  /** Each settings value makes one allocation attempt. */
  function Attempts(props: seq<Prop>): nat {
    Keys(props, false) + Keys(props, true)
  }

  /** The latest value of the key got its block; first is the number of the first attempt. */
  predicate Allocated(props: seq<Prop>, six: bool, first: nat, fails: set<nat>) {
    props != [] &&
    (if IsKey(Last(props), six) then first + Attempts(Front(props)) !in fails else Allocated(Front(props), six, first, fails))
  }

  /** Some settings key meets an address block that is already there. */
  predicate Overwrites(props: seq<Prop>, first: nat, fails: set<nat>) {
    props != [] &&
    (Overwrites(Front(props), first, fails)
     || (IsKey(Last(props), false) && Allocated(Front(props), false, first, fails))
     || (IsKey(Last(props), true) && Allocated(Front(props), true, first, fails)))
  }

  /** The same for a list, up to a context that cannot be allocated or the n-th active one. */
  predicate ListOverwrites(entries: seq<Entry>, n: nat, first: nat, fails: set<nat>) {
    entries != [] && n > 0 && first !in fails && first + 1 !in fails &&
    (Overwrites(entries[0].props, first + 2, fails)
     || ListOverwrites(entries[1..], if IsActive(entries[0]) then n - 1 else n, first + 2 + Attempts(entries[0].props), fails))
  }

  predicate IsFresh(dc: Dc) {
    dc.ipv4 == None && dc.ipv6 == None
  }

  lemma {:induction false} PropsBlocks(m: Mem, fails: set<nat>, dc: Dc, props: seq<Prop>)
    requires IsFresh(dc)
    ensures var (m', dc') := Props(m, fails, dc, props);
      && m'.tries == m.tries + Attempts(props)
      && (dc'.ipv4.Some? <==> Allocated(props, false, m.tries, fails))
      && (dc'.ipv6.Some? <==> Allocated(props, true, m.tries, fails))
  {
    if props != [] {
      PropsBlocks(m, fails, dc, Front(props));
    }
  }

  /** Blocks are only ever added to the lost ones, and none is exactly if nothing meets. */
  ghost predicate Loses(before: set<nat>, after: set<nat>, meets: bool) {
    before <= after && (after == before <==> !meets)
  }

  lemma {:induction false} PropsLost(m: Mem, fails: set<nat>, base: set<nat>, dcs: seq<Dc>, dc: Dc, props: seq<Prop>)
    requires Holds(m, base, dcs, dc) && IsFresh(dc)
    ensures Loses(m.lost, Props(m, fails, dc, props).0.lost, Overwrites(props, m.tries, fails))
  {
    if props != [] {
      PropsLost(m, fails, base, dcs, dc, Front(props));
      PropsKeep(m, fails, base, dcs, dc, Front(props));
      PropsBlocks(m, fails, dc, Front(props));
      var (m', dc') := Props(m, fails, dc, Front(props));
      PropKeeps(m', fails, base, dcs, dc', Last(props));
    }
  }

  lemma {:induction false} PropsView(m: Mem, fails: set<nat>, dc: Dc, path: string, props: seq<Prop>)
    requires IsFresh(dc) && dc.data == Blank(path)
    ensures var dc' := Props(m, fails, dc, props).1;
      && dc'.data == DataOf(path, props)
      && (fails == {} ==> IpOf(dc'.ipv4) == LastSettings(props, false) && IpOf(dc'.ipv6) == LastSettings(props, true))
  {
    if props != [] {
      PropsView(m, fails, dc, path, Front(props));
    }
  }

  lemma LosesInTurn(a: set<nat>, b: set<nat>, c: set<nat>, first: bool, second: bool)
    requires Loses(a, b, first) && Loses(b, c, second)
    ensures Loses(a, c, first || second)
  {
  }

  /** One turn of the loop. */
  lemma TurnLost(m: Mem, fails: set<nat>, e: Entry, base: set<nat>, dcs: seq<Dc>)
    requires Sound(m, base, dcs)
    ensures var (m', next) := Turn(m, fails, e, dcs);
      if next == None then m'.lost == m.lost && (m.tries in fails || m.tries + 1 in fails)
      else
        && m.tries !in fails && m.tries + 1 !in fails
        && |next.value| == (if IsActive(e) then |dcs| + 1 else |dcs|)
        && m'.tries == m.tries + 2 + Attempts(e.props)
        && Loses(m.lost, m'.lost, Overwrites(e.props, m.tries + 2, fails))
  {
    NewKeeps(m, fails, e.path, base, dcs);
    var (m1, dc) := New(m, fails, e.path);
    if dc.Some? {
      KeepKeeps(m1, fails, base, dcs, dc.value, e.props);
      PropsLost(m1, fails, base, dcs, dc.value, e.props);
      PropsBlocks(m1, fails, dc.value, e.props);
      PropsView(m1, fails, dc.value, e.path, e.props);
    }
  }

  lemma {:induction false} DecodeListLost(m: Mem, fails: set<nat>, entries: seq<Entry>, base: set<nat>, dcs: seq<Dc>)
    requires Sound(m, base, dcs) && |dcs| <= MAX_DATA_CALL_LIST_SIZE
    ensures Loses(m.lost, DecodeList(m, fails, entries, dcs).0.lost,
                  ListOverwrites(entries, MAX_DATA_CALL_LIST_SIZE - |dcs|, m.tries, fails))
    decreases entries
  {
    if entries != [] && |dcs| < MAX_DATA_CALL_LIST_SIZE {
      var e, rest := entries[0], entries[1..];
      TurnKeeps(m, fails, e, base, dcs);
      TurnLost(m, fails, e, base, dcs);
      var (m', next) := Turn(m, fails, e, dcs);
      if next.Some? {
        DecodeListLost(m', fails, rest, base, next.value);
        LosesInTurn(m.lost, m'.lost, DecodeList(m', fails, rest, next.value).0.lost, Overwrites(e.props, m.tries + 2, fails),
                    ListOverwrites(rest, MAX_DATA_CALL_LIST_SIZE - |next.value|, m'.tries, fails));
      }
    }
  }

  /** Whichever allocations fail, the heap is what it was if and only if no settings key of a
      visited context meets an address block that is already there. */
  lemma HeapRestoredIff(m: Mem, fails: set<nat>, entries: seq<Entry>)
    requires Parts(m, m.live, {}) && m.lost == {}
    ensures QueryDone(m, fails, true, List(entries)).0.live == m.live
            <==> !ListOverwrites(entries, MAX_DATA_CALL_LIST_SIZE, m.tries, fails)
  {
    HeapAfter(m, fails, true, List(entries));
    DecodeListLost(m, fails, entries, m.live, []);
    DecodeListKeeps(m, fails, entries, m.live, []);
    var (m', dcs) := DecodeList(m, fails, entries, []);
    FreeListKeeps(m', m.live, dcs);
  }

  /** At most one settings value of each kind. */
  predicate NoRepeat(props: seq<Prop>) {
    Keys(props, false) <= 1 && Keys(props, true) <= 1
  }

  predicate NoneRepeats(entries: seq<Entry>) {
    forall k :: 0 <= k < |entries| ==> NoRepeat(entries[k].props)
  }

  lemma {:induction false} OverwritesOnlyRepeats(props: seq<Prop>, first: nat, fails: set<nat>)
    ensures forall six :: Allocated(props, six, first, fails) ==> Keys(props, six) > 0
    ensures fails == {} ==> forall six :: Keys(props, six) > 0 ==> Allocated(props, six, first, fails)
    ensures Overwrites(props, first, fails) ==> !NoRepeat(props)
    ensures fails == {} && !NoRepeat(props) ==> Overwrites(props, first, fails)
  {
    if props != [] {
      OverwritesOnlyRepeats(Front(props), first, fails);
    }
  }

  lemma VisitedStep(e: Entry, rest: seq<Entry>)
    ensures NoneRepeats([e] + rest) <==> NoRepeat(e.props) && NoneRepeats(rest)
  {
    assert NoneRepeats([e] + rest) ==> forall k :: 0 <= k < |rest| ==> rest[k] == ([e] + rest)[k + 1];
    assert NoneRepeats([e] + rest) ==> NoRepeat(([e] + rest)[0].props);
  }

  lemma {:induction false} ListOverwritesOnlyRepeats(entries: seq<Entry>, n: nat, first: nat, fails: set<nat>)
    ensures NoneRepeats(Visited(entries, n)) ==> !ListOverwrites(entries, n, first, fails)
    ensures fails == {} && !ListOverwrites(entries, n, first, fails) ==> NoneRepeats(Visited(entries, n))
    decreases entries
  {
    if entries != [] && n > 0 {
      var e, left := entries[0], if IsActive(entries[0]) then n - 1 else n;
      OverwritesOnlyRepeats(e.props, first + 2, fails);
      ListOverwritesOnlyRepeats(entries[1..], left, first + 2 + Attempts(e.props), fails);
      VisitedStep(e, Visited(entries[1..], left));
    }
  }

  /** So it is restored, whichever allocations fail, when no visited context repeats a
      settings key; without failures this is also the only way. */
  lemma HeapRestored(m: Mem, fails: set<nat>, entries: seq<Entry>)
    requires Parts(m, m.live, {}) && m.lost == {}
    ensures var m', visited := QueryDone(m, fails, true, List(entries)).0, Visited(entries, MAX_DATA_CALL_LIST_SIZE);
      && (NoneRepeats(visited) ==> m'.live == m.live)
      && (fails == {} ==> (m'.live == m.live <==> NoneRepeats(visited)))
  {
    HeapRestoredIff(m, fails, entries);
    ListOverwritesOnlyRepeats(entries, MAX_DATA_CALL_LIST_SIZE, m.tries, fails);
  }

  /** The least message with a block lost: one context with the key twice. */
  lemma RepeatedKeyLoses(path: string)
    ensures var twice := [SettingsProp(None), SettingsProp(None)];
      QueryDone(Mem({}, 0, {}), {}, true, List([Entry(path, twice)])).0.live != {}
  {
    var twice := [SettingsProp(None), SettingsProp(None)];
    HeapRestored(Mem({}, 0, {}), {}, [Entry(path, twice)]);
    var visited := Visited([Entry(path, twice)], MAX_DATA_CALL_LIST_SIZE);
    assert Front(twice) == [SettingsProp(None)] && Front(Front(twice)) == [];
    assert Keys(twice, false) == 2;
    assert !NoRepeat(visited[0].props);
  }

  // ----- what the callback sees -----

  /** The same contexts up to some point, perhaps with addresses missing. */
  ghost predicate CutShort(views: seq<View>, all: seq<View>) {
    |views| <= |all| && forall k :: 0 <= k < |views| ==> views[k].data == all[k].data
  }

  /** All of them, except as far as allocations failed. */
  ghost predicate SeenAs(fails: set<nat>, views: seq<View>, all: seq<View>) {
    CutShort(views, all) && (fails == {} ==> views == all)
  }

  lemma SeenVia(fails: set<nat>, views: seq<View>, mid: seq<View>, all: seq<View>)
    requires SeenAs(fails, views, mid) && SeenAs(fails, mid, all)
    ensures SeenAs(fails, views, all)
  {
  }

  /** One turn of the loop: an active context is the first of those still to be seen. */
  lemma TurnSees(m: Mem, fails: set<nat>, e: Entry, dcs: seq<Dc>, more: seq<View>)
    ensures var next := Turn(m, fails, e, dcs).1;
      if next == None then fails != {}
      else
        && |next.value| == (if IsActive(e) then |dcs| + 1 else |dcs|)
        && SeenAs(fails, Views(next.value) + more, Views(dcs) + if IsActive(e) then [Described(e)] + more else more)
  {
    var (m1, dc) := New(m, fails, e.path);
    if dc.Some? {
      PropsView(m1, fails, dc.value, e.path, e.props);
      var dc' := Props(m1, fails, dc.value, e.props).1;
      assert Front(dcs + [dc']) == dcs;
      assert Views(dcs + [dc']) + more == Views(dcs) + ([ViewOf(dc')] + more);
    }
  }

  lemma FirstActiveStep(entries: seq<Entry>, n: nat)
    requires entries != [] && n > 0
    ensures var e, rest := entries[0], entries[1..];
      FirstActive(entries, n) == if IsActive(e) then [Described(e)] + FirstActive(rest, n - 1) else FirstActive(rest, n)
  {
  }

  lemma NothingSeenYet(fails: set<nat>, dcs: seq<Dc>, more: seq<View>)
    requires fails != {} || more == []
    ensures SeenAs(fails, Views(dcs), Views(dcs) + more)
  {
  }

  lemma {:induction false} DecodeListViews(m: Mem, fails: set<nat>, entries: seq<Entry>, dcs: seq<Dc>)
    requires |dcs| <= MAX_DATA_CALL_LIST_SIZE
    ensures SeenAs(fails, Views(DecodeList(m, fails, entries, dcs).1),
                   Views(dcs) + FirstActive(entries, MAX_DATA_CALL_LIST_SIZE - |dcs|))
    decreases entries
  {
    var room := MAX_DATA_CALL_LIST_SIZE - |dcs|;
    var all := FirstActive(entries, room);
    if entries == [] || room == 0 {
      NothingSeenYet(fails, dcs, all);
      return;
    }
    var e, rest := entries[0], entries[1..];
    var more := FirstActive(rest, if IsActive(e) then room - 1 else room);
    TurnSees(m, fails, e, dcs, more);
    var (m', next) := Turn(m, fails, e, dcs);
    if next == None {
      NothingSeenYet(fails, dcs, all);
      return;
    }
    FirstActiveStep(entries, room);
    DecodeListViews(m', fails, rest, next.value);
    SeenVia(fails, Views(DecodeList(m', fails, rest, next.value).1), Views(next.value) + more, Views(dcs) + all);
  }

  /** Without failures the callback sees exactly the first ten active contexts in message
      order; failures only cut the list short and leave out addresses. */
  lemma SeesFirstActive(m: Mem, fails: set<nat>, entries: seq<Entry>)
    ensures var seen := QueryDone(m, fails, true, List(entries)).1;
      && seen.Some? && seen.value.status == OK
      && SeenAs(fails, seen.value.contexts, FirstActive(entries, MAX_DATA_CALL_LIST_SIZE))
  {
    DecodeListViews(m, fails, entries, []);
    assert Views([]) + FirstActive(entries, MAX_DATA_CALL_LIST_SIZE) == FirstActive(entries, MAX_DATA_CALL_LIST_SIZE);
  }
}
