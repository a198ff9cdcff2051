/** The contexts that the callback of a data-call query is given, told from the properties of
    the message alone. */
module DataLaws {
  import opened Basics
  import opened DataContexts
  import opened Filtering
  import IpSettings

  /** Property k is the last one of a list for which p holds. */
  ghost predicate IsLast(props: seq<Prop>, p: Prop -> bool, k: nat) {
    k < |props| && p(props[k]) && forall j :: k < j < |props| ==> !p(props[j])
  }

  ghost predicate Absent(props: seq<Prop>, p: Prop -> bool) {
    forall j :: 0 <= j < |props| ==> !p(props[j])
  }

  function ActiveKey(): Prop -> bool { (p: Prop) => p.ActiveProp? }
  function TextKey(f: TextField): Prop -> bool { (p: Prop) => p.TextProp? && p.text == f && |p.value| <= 128 }
  function EnumKey(f: EnumField): Prop -> bool { (p: Prop) => p.EnumProp? && p.enumerated == f }
  function Ipv4Key(): Prop -> bool { (p: Prop) => p.SettingsProp? }
  function Ipv6Key(): Prop -> bool { (p: Prop) => p.Ipv6SettingsProp? }

  const TYPES: map<string, int> :=
    map["internet" := 1, "hipri" := 2, "supl" := 3, "mms" := 4, "wap" := 5, "ims" := 6, "emergency" := 7]
  const PROTOCOLS: map<string, int> := map["IP" := 0, "IPV6" := 1, "IPV4V6" := 2]
  const METHODS: map<string, int> := map["chap" := 0, "pap" := 1, "none" := 2]

  function InTable(table: map<string, int>, text: string, default: int): int {
    if text in table then table[text] else default
  }

  /** Unknown strings are any type, protocol IP, and no authentication. */
  function Number(f: EnumField, text: string): int {
    match f
    case Type => InTable(TYPES, text, 0)
    case Protocol => InTable(PROTOCOLS, text, 0)
    case AuthenticationMethod => InTable(METHODS, text, 2)
  }

  // ----- what a view says about its entry -----

  /** The last activity property of the entry says true. */
  ghost predicate SaysActive(props: seq<Prop>) {
    exists k: nat :: IsLast(props, ActiveKey(), k) && props[k] == ActiveProp(true)
  }

  ghost predicate TextTold(props: seq<Prop>, f: TextField, texts: map<TextField, string>) {
    if Absent(props, TextKey(f)) then f !in texts
    else exists k: nat :: IsLast(props, TextKey(f), k) && f in texts && texts[f] == props[k].value
  }

  ghost predicate EnumTold(props: seq<Prop>, f: EnumField, enums: map<EnumField, int>) {
    if Absent(props, EnumKey(f)) then f !in enums
    else exists k: nat :: IsLast(props, EnumKey(f), k) && f in enums && enums[f] == Number(f, props[k].value)
  }

  function IpSaid(p: Prop): IpSettings.Ip
    requires p.SettingsProp? || p.Ipv6SettingsProp?
  {
    if p.settings.Some? then IpSettings.Parsed(p.settings.value) else IpSettings.EMPTY_IP
  }

  ghost predicate IpTold(props: seq<Prop>, key: Prop -> bool, ip: Option<IpSettings.Ip>)
    requires forall p :: key(p) ==> p.SettingsProp? || p.Ipv6SettingsProp?
  {
    if Absent(props, key) then ip == None
    else exists k: nat :: IsLast(props, key, k) && ip == Some(IpSaid(props[k]))
  }

  /** Each text is the last value of its key with at most 128 characters, each number the table
      value of the last string of its key, each address block what the last settings of its
      kind say; what has no such property is not set. */
  ghost predicate DataTold(props: seq<Prop>, d: Data) {
    && (d.active <==> SaysActive(props))
    && (forall f :: TextTold(props, f, d.texts))
    && (forall f :: EnumTold(props, f, d.enums))
  }

  lemma LastNext(props: seq<Prop>, p: Prop -> bool)
    requires props != []
    ensures p(Last(props)) ==> IsLast(props, p, |props| - 1)
    ensures !p(Last(props)) ==> forall k: nat :: IsLast(props, p, k) <==> IsLast(Front(props), p, k)
    ensures Absent(props, p) <==> Absent(Front(props), p) && !p(Last(props))
  {
    var front := Front(props);
    assert forall j :: 0 <= j < |front| ==> front[j] == props[j];
    if !p(Last(props)) {
      forall k: nat ensures IsLast(props, p, k) <==> IsLast(front, p, k) {
      }
    }
  }

  lemma ActiveNext(props: seq<Prop>)
    requires props != []
    ensures SaysActive(props) <==> if Last(props).ActiveProp? then Last(props).on else SaysActive(Front(props))
  {
    LastNext(props, ActiveKey());
    var front := Front(props);
    if Last(props).ActiveProp? {
      if SaysActive(props) {
        var k: nat :| IsLast(props, ActiveKey(), k) && props[k] == ActiveProp(true);
        assert ActiveKey()(props[|props| - 1]);
        assert k == |props| - 1;
      }
    } else {
      if SaysActive(props) {
        var k: nat :| IsLast(props, ActiveKey(), k) && props[k] == ActiveProp(true);
        assert IsLast(front, ActiveKey(), k) && front[k] == ActiveProp(true);
      }
      if SaysActive(front) {
        var k: nat :| IsLast(front, ActiveKey(), k) && front[k] == ActiveProp(true);
        assert IsLast(props, ActiveKey(), k) && props[k] == ActiveProp(true);
      }
    }
  }

  lemma TextNext(props: seq<Prop>, f: TextField, before: map<TextField, string>, texts: map<TextField, string>)
    requires props != [] && TextTold(Front(props), f, before)
    requires if TextKey(f)(Last(props)) then f in texts && texts[f] == Last(props).value
             else f in texts <==> f in before
    requires !TextKey(f)(Last(props)) && f in before ==> texts[f] == before[f]
    ensures TextTold(props, f, texts)
  {
    LastNext(props, TextKey(f));
    if !TextKey(f)(Last(props)) && !Absent(props, TextKey(f)) {
      var k: nat :| IsLast(Front(props), TextKey(f), k) && f in before && before[f] == Front(props)[k].value;
      assert IsLast(props, TextKey(f), k) && texts[f] == props[k].value;
    }
  }

  lemma EnumNext(props: seq<Prop>, f: EnumField, before: map<EnumField, int>, enums: map<EnumField, int>)
    requires props != [] && EnumTold(Front(props), f, before)
    requires if EnumKey(f)(Last(props)) then f in enums && enums[f] == Number(f, Last(props).value)
             else f in enums <==> f in before
    requires !EnumKey(f)(Last(props)) && f in before ==> enums[f] == before[f]
    ensures EnumTold(props, f, enums)
  {
    LastNext(props, EnumKey(f));
    if !EnumKey(f)(Last(props)) && !Absent(props, EnumKey(f)) {
      var k: nat :| IsLast(Front(props), EnumKey(f), k) && f in before && before[f] == Number(f, Front(props)[k].value);
      assert IsLast(props, EnumKey(f), k) && enums[f] == Number(f, props[k].value);
    }
  }

  /** The tables, string by string. */
  lemma Tables(f: EnumField, text: string)
    ensures Converted(f, text) == Number(f, text)
  {
  }

  lemma {:induction false} DataIsTold(path: string, props: seq<Prop>)
    ensures DataOf(path, props).path == path && DataTold(props, DataOf(path, props))
  {
    var d := DataOf(path, props);
    if props == [] {
      assert !SaysActive(props);
    } else {
      DataIsTold(path, Front(props));
      ActiveNext(props);
      var before := DataOf(path, Front(props));
      if Last(props).EnumProp? {
        Tables(Last(props).enumerated, Last(props).value);
      }
      forall f ensures TextTold(props, f, d.texts) {
        assert TextTold(Front(props), f, before.texts);
        TextNext(props, f, before.texts, d.texts);
      }
      forall f ensures EnumTold(props, f, d.enums) {
        assert EnumTold(Front(props), f, before.enums);
        EnumNext(props, f, before.enums, d.enums);
      }
    }
  }

  lemma {:induction false} SettingsAreTold(props: seq<Prop>, six: bool)
    ensures IpTold(props, if six then Ipv6Key() else Ipv4Key(), LastSettings(props, six))
  {
    if props != [] {
      var key := if six then Ipv6Key() else Ipv4Key();
      LastNext(props, key);
      SettingsAreTold(Front(props), six);
      var k: nat := |props| - 1;
      if !key(Last(props)) && !Absent(props, key) {
        k :| IsLast(Front(props), key, k) && LastSettings(Front(props), six) == Some(IpSaid(Front(props)[k]));
      }
      assert !Absent(props, key) ==> IsLast(props, key, k);
    }
  }

  /** Everything that a context says comes from the properties of its entry. */
  ghost predicate Describes(v: View, e: Entry) {
    && v.data.path == e.path
    && DataTold(e.props, v.data)
    && IpTold(e.props, Ipv4Key(), v.ipv4)
    && IpTold(e.props, Ipv6Key(), v.ipv6)
  }

  lemma DescribedDescribes(e: Entry)
    ensures Describes(Described(e), e)
    ensures IsActive(e) <==> SaysActive(e.props)
  {
    DataIsTold(e.path, e.props);
    SettingsAreTold(e.props, false);
    SettingsAreTold(e.props, true);
  }

  // ----- the list -----

  ghost function Says(): Entry -> bool {
    (e: Entry) => SaysActive(e.props)
  }

  /** The contexts describe the first n entries of which the last activity property says true. */
  ghost predicate DescribeFirst(views: seq<View>, entries: seq<Entry>, n: nat) {
    var chosen := Filter(Says(), entries);
    && |views| == Min(|chosen|, n)
    && forall k :: 0 <= k < |views| ==> Describes(views[k], chosen[k])
  }

  lemma DescribeFirstNext(v: View, e: Entry, views: seq<View>, rest: seq<Entry>, n: nat)
    requires DescribeFirst(views, rest, n)
    ensures Describes(v, e) && SaysActive(e.props) ==> DescribeFirst([v] + views, [e] + rest, n + 1)
    ensures !SaysActive(e.props) ==> DescribeFirst(views, [e] + rest, n)
  {
    FilterFirst(Says(), e, rest);
  }

  lemma {:induction false} FirstActiveDescribes(entries: seq<Entry>, n: nat)
    ensures DescribeFirst(FirstActive(entries, n), entries, n)
    decreases entries
  {
    if entries != [] && n > 0 {
      var e, rest := entries[0], entries[1..];
      var left := if IsActive(e) then n - 1 else n;
      DescribedDescribes(e);
      FirstActiveDescribes(rest, left);
      DescribeFirstNext(Described(e), e, FirstActive(rest, left), rest, left);
      assert entries == [e] + rest;
    }
  }

  /** Without failures the callback is told OK and given the first ten active entries of the
      message, in order, each described in full. */
  lemma CallbackSees(m: Mem, entries: seq<Entry>)
    ensures var seen := QueryDone(m, {}, true, List(entries)).1;
      seen.Some? && seen.value.status == 0 && DescribeFirst(seen.value.contexts, entries, 10)
  {
    SeesFirstActive(m, {}, entries);
    FirstActiveDescribes(entries, 10);
  }

  /** Whatever fails, it is given the first of them, possibly without addresses. */
  lemma CallbackSeesAtMost(m: Mem, fails: set<nat>, entries: seq<Entry>)
    ensures var seen := QueryDone(m, fails, true, List(entries)).1;
      && seen.Some? && seen.value.status == 0 && |seen.value.contexts| <= Min(|Filter(Says(), entries)|, 10)
      && forall k :: 0 <= k < |seen.value.contexts| ==>
           seen.value.contexts[k].data.path == Filter(Says(), entries)[k].path
           && DataTold(Filter(Says(), entries)[k].props, seen.value.contexts[k].data)
  {
    SeesFirstActive(m, fails, entries);
    FirstActiveDescribes(entries, 10);
  }

  /** An error, a wrong signature and an empty message are told as an error, without contexts
      and without touching the heap; without a callback nothing happens. */
  lemma QueryErrors(m: Mem, fails: set<nat>, message: Message)
    ensures QueryDone(m, fails, false, message) == (m, None)
    ensures message in {BusError, WrongSignature, NoBody} ==>
      QueryDone(m, fails, true, message) == (m, Some(Seen(-1, [])))
  {
  }
}
