/** The IPv4 and IPv6 settings of a data context (`parse_ipv4_properties` and
    `parse_ipv6_properties`, which read the same five keys in the same way). */
module IpSettings {
  import opened Basics

  const MAX_DATA_DNS_COUNT: nat := 10
  const MAX_IP_INTERFACE_NAME_LENGTH: nat := 128
  const MAX_IP_STRING_LENGTH: nat := 128

  datatype Field = Interface | Address | Gateway | Pcscf

  /** One dictionary entry; an element of a name-server list that is no string is None. */
  datatype Prop = FieldProp(field: Field, value: string) | DnsProp(servers: seq<Option<string>>) | OtherProp

  datatype Ip = Ip(fields: map<Field, string>, dns: seq<string>)

  const NO_DNS: seq<string> := ["", "", "", "", "", "", "", "", "", ""]
  const EMPTY_IP := Ip(map[], NO_DNS)

  function Limit(field: Field): nat {
    if field == Interface then MAX_IP_INTERFACE_NAME_LENGTH else MAX_IP_STRING_LENGTH
  }

  /** The name servers short enough to be kept. */
  function Fitting(servers: seq<Option<string>>): seq<string> {
    if servers == [] then []
    else
      var last := servers[|servers| - 1];
      Fitting(servers[..|servers| - 1]) +
        if last.Some? && |last.value| <= MAX_IP_STRING_LENGTH then [last.value] else []
  }

  /** The first n of a list, over what was there. */
  function Overlay(dns: seq<string>, servers: seq<string>): (r: seq<string>)
    requires |dns| == MAX_DATA_DNS_COUNT
    ensures |r| == MAX_DATA_DNS_COUNT
  {
    var n := Min(|servers|, MAX_DATA_DNS_COUNT);
    servers[..n] + dns[n..]
  }

  function Apply(ip: Ip, p: Prop): (r: Ip)
    requires |ip.dns| == MAX_DATA_DNS_COUNT
    ensures |r.dns| == MAX_DATA_DNS_COUNT
  {
    match p
    case FieldProp(field, value) =>
      if |value| <= Limit(field) then ip.(fields := ip.fields[field := value]) else ip
    case DnsProp(servers) => ip.(dns := Overlay(ip.dns, Fitting(servers)))
    case OtherProp => ip
  }

  /** The settings that a dictionary describes. */
  function Parsed(props: seq<Prop>): (r: Ip)
    ensures |r.dns| == MAX_DATA_DNS_COUNT
  {
    if props == [] then EMPTY_IP else Apply(Parsed(props[..|props| - 1]), props[|props| - 1])
  }

  lemma {:induction false} FittingGrows(servers: seq<Option<string>>, k: nat)
    requires k <= |servers|
    ensures Fitting(servers[..k]) <= Fitting(servers)
    decreases |servers| - k
  {
    if k < |servers| {
      FittingGrows(servers, k + 1);
      assert servers[..k + 1][..k] == servers[..k];
    } else {
      assert servers[..k] == servers;
    }
  }

  lemma FittingNext(servers: seq<Option<string>>, k: nat)
    requires k < |servers|
    ensures Fitting(servers[..k + 1]) ==
      if servers[k].Some? && |servers[k].value| <= MAX_IP_STRING_LENGTH then Fitting(servers[..k]) + [servers[k].value]
      else Fitting(servers[..k])
  {
    assert servers[..k + 1][..k] == servers[..k];
  }

  lemma OverlayNext(dns: seq<string>, servers: seq<string>, value: string)
    requires |dns| == MAX_DATA_DNS_COUNT && |servers| < MAX_DATA_DNS_COUNT
    ensures Overlay(dns, servers + [value]) == Overlay(dns, servers)[|servers| := value]
  {
  }

  lemma OverlayFull(dns: seq<string>, servers: seq<string>, more: seq<string>)
    requires |dns| == MAX_DATA_DNS_COUNT == |servers| && servers <= more
    ensures Overlay(dns, more) == Overlay(dns, servers)
  {
  }

  /** The name-server loop: the first ten that fit go in front, in order, and no element
      after the tenth accepted one is looked at. */
  method FillDns(dns: array<string>, servers: seq<Option<string>>) returns (visited: nat)
    requires dns.Length == MAX_DATA_DNS_COUNT
    modifies dns
    ensures dns[..] == Overlay(old(dns[..]), Fitting(servers))
    ensures visited <= |servers|
    ensures |Fitting(servers[..visited])| == Min(|Fitting(servers)|, MAX_DATA_DNS_COUNT)
    ensures visited < |servers| ==> visited > 0 && |Fitting(servers[..visited - 1])| < |Fitting(servers[..visited])| == MAX_DATA_DNS_COUNT
  {
    ghost var dns0 := dns[..];
    var index := 0;
    visited := 0;
    while visited < |servers|
      invariant visited <= |servers|
      invariant index == |Fitting(servers[..visited])| < MAX_DATA_DNS_COUNT
      invariant dns[..] == Overlay(dns0, Fitting(servers[..visited]))
    {
      FittingNext(servers, visited);
      visited := visited + 1;
      if servers[visited - 1].Some? {
        var value := servers[visited - 1].value;
        if |value| <= MAX_IP_STRING_LENGTH {
          OverlayNext(dns0, Fitting(servers[..visited - 1]), value);
          ghost var before := dns[..];
          dns[index] := value;
          assert dns[..] == before[index := value];
          index := index + 1;
        }
        if index >= MAX_DATA_DNS_COUNT {
          FittingGrows(servers, visited);
          OverlayFull(dns0, Fitting(servers[..visited]), Fitting(servers));
          return;
        }
      }
    }
    assert servers[..visited] == servers;
  }

  ghost predicate NoDns(props: seq<Prop>) {
    forall k :: 0 <= k < |props| ==> !props[k].DnsProp?
  }

  /** No value that would be stored under this field. */
  ghost predicate NoValue(props: seq<Prop>, field: Field) {
    forall k :: 0 <= k < |props| ==> !(props[k].FieldProp? && props[k].field == field && |props[k].value| <= Limit(field))
  }

  lemma ParsedNext(props: seq<Prop>, p: Prop)
    ensures Parsed(props + [p]) == Apply(Parsed(props), p)
  {
    assert (props + [p])[..|props|] == props;
  }

  /** Entries with other keys, or with values that are too long, leave a setting alone. */
  lemma {:induction false} ParsedAfter(props: seq<Prop>, after: seq<Prop>)
    ensures NoDns(after) ==> Parsed(props + after).dns == Parsed(props).dns
    ensures forall field :: NoValue(after, field) ==>
      (field in Parsed(props + after).fields <==> field in Parsed(props).fields)
      && (field in Parsed(props).fields ==> Parsed(props + after).fields[field] == Parsed(props).fields[field])
    decreases |after|
  {
    if after == [] {
      assert props + after == props;
    } else {
      var front, last := after[..|after| - 1], after[|after| - 1];
      ParsedAfter(props, front);
      ParsedNext(props + front, last);
      assert props + after == props + front + [last];
      forall field | NoValue(after, field) ensures NoValue(front, field) {
      }
    }
  }

  ghost predicate IsFirstTen(dns: seq<string>, fit: seq<string>) {
    |dns| == MAX_DATA_DNS_COUNT && forall k :: 0 <= k < |dns| ==> dns[k] == if k < |fit| then fit[k] else ""
  }

  lemma OverlayNone(servers: seq<string>)
    ensures IsFirstTen(Overlay(NO_DNS, servers), servers)
  {
    var n := Min(|servers|, MAX_DATA_DNS_COUNT);
    assert forall k :: 0 <= k < MAX_DATA_DNS_COUNT ==> NO_DNS[k] == "";
    assert forall k :: n <= k < MAX_DATA_DNS_COUNT ==> Overlay(NO_DNS, servers)[k] == NO_DNS[k];
  }

  /** With one name-server list anywhere in the dictionary the array holds its first ten
      fitting entries, padded with empty strings. */
  lemma DnsIsFirstTen(before: seq<Prop>, servers: seq<Option<string>>, after: seq<Prop>)
    requires NoDns(before) && NoDns(after)
    ensures IsFirstTen(Parsed(before + [DnsProp(servers)] + after).dns, Fitting(servers))
  {
    OverlayNone(Fitting(servers));
    ParsedAfter([], before);
    assert [] + before == before;
    ParsedNext(before, DnsProp(servers));
    ParsedAfter(before + [DnsProp(servers)], after);
  }

  /** Each address setting is the last value of its key that is not too long. */
  lemma FieldIsLastFitting(before: seq<Prop>, field: Field, value: string, after: seq<Prop>)
    requires |value| <= Limit(field) && NoValue(after, field)
    ensures var fields := Parsed(before + [FieldProp(field, value)] + after).fields;
      field in fields && fields[field] == value
  {
    ParsedNext(before, FieldProp(field, value));
    ParsedAfter(before + [FieldProp(field, value)], after);
  }

  /** A name server is kept if it is a string of at most 128 characters, and in its order. */
  lemma {:induction false} FittingPieces(a: seq<Option<string>>, b: seq<Option<string>>)
    ensures Fitting(a + b) == Fitting(a) + Fitting(b)
    decreases |b|
  {
    if b == [] {
      assert a + b == a;
    } else {
      FittingPieces(a, b[..|b| - 1]);
      assert (a + b)[..|a + b| - 1] == a + b[..|b| - 1] && (a + b)[|a + b| - 1] == b[|b| - 1];
    }
  }

  lemma FittingOne(server: Option<string>)
    ensures Fitting([]) == []
    ensures Fitting([server]) == if server.Some? && |server.value| <= 128 then [server.value] else []
  {
    assert [server][..0] == [];
  }

  /** A value of at most 128 characters is stored unless a later one for its key is; without
      any such value the field is not set. */
  lemma FieldStored(before: seq<Prop>, field: Field, value: string, after: seq<Prop>)
    requires |value| <= 128
    requires forall k :: 0 <= k < |after| ==> !(after[k].FieldProp? && after[k].field == field && |after[k].value| <= 128)
    ensures var fields := Parsed(before + [FieldProp(field, value)] + after).fields;
      field in fields && fields[field] == value
    ensures field !in Parsed(after).fields
  {
    FieldIsLastFitting(before, field, value, after);
    ParsedAfter([], after);
    assert [] + after == after;
  }

  /** A further name-server list goes over the front of the earlier ones. */
  lemma RepeatedDns(before: seq<Prop>, servers: seq<Option<string>>, k: nat)
    requires k < 10
    ensures Parsed(before + [DnsProp(servers)]).dns[k] ==
            if k < |Fitting(servers)| then Fitting(servers)[k] else Parsed(before).dns[k]
    ensures Parsed(before + [DnsProp(servers)]).fields == Parsed(before).fields
  {
    ParsedNext(before, DnsProp(servers));
  }

  /** Without a name-server list, and in a block that was given no dictionary, all ten name
      servers are empty and, in the latter, no field is set. */
  lemma NothingGiven(props: seq<Prop>)
    ensures NoDns(props) ==> IsFirstTen(Parsed(props).dns, [])
    ensures EMPTY_IP.fields == map[] && IsFirstTen(EMPTY_IP.dns, [])
  {
    ParsedAfter([], props);
    assert [] + props == props;
    OverlayNone([]);
    assert Overlay(NO_DNS, []) == NO_DNS;
  }

  /** `parse_ipv4_properties` and `parse_ipv6_properties` after their block was allocated;
      props is None when the value is no dictionary. */
  method Parse(props: Option<seq<Prop>>) returns (ip: Ip)
    ensures ip == if props.Some? then Parsed(props.value) else EMPTY_IP
  {
    var dns := new string[MAX_DATA_DNS_COUNT](_ => "");
    var fields: map<Field, string> := map[];
    assert dns[..] == NO_DNS;
    if props == None {
      return Ip(fields, dns[..]);
    }
    var k := 0;
    assert props.value[..0] == [];
    while k < |props.value|
      invariant 0 <= k <= |props.value|
      invariant Ip(fields, dns[..]) == Parsed(props.value[..k])
    {
      assert props.value[..k + 1][..k] == props.value[..k];
      match props.value[k] {
        case FieldProp(field, value) =>
          if |value| <= Limit(field) {
            fields := fields[field := value];
          }
        case DnsProp(servers) => var _ := FillDns(dns, servers);
        case OtherProp =>
      }
      k := k + 1;
    }
    assert props.value[..k] == props.value;
    return Ip(fields, dns[..]);
  }
}
