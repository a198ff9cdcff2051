/** `data_connection_list_query_done` step by step on a heap whose allocations may fail. */
module DataQuery {
  import opened Basics
  import opened DataContexts
  import IpSettings

  class Client {
    const fails: set<nat>
    var live: set<nat>
    var tries: nat
    ghost var lost: set<nat>

    ghost function State(): Mem
      reads this
    {
      Mem(live, tries, lost)
    }

    method Allocate() returns (block: Option<nat>)
      modifies this
      ensures (State(), block) == Malloc(old(State()), fails)
    {
      tries := tries + 1;
      if tries - 1 in fails {
        return None;
      }
      live := live + {tries - 1};
      return Some(tries - 1);
    }

    /** Only a live block may be freed. */
    method Free(block: nat)
      requires block in live
      modifies this`live
      ensures State() == FreeAll(old(State()), {block})
    {
      live := live - {block};
    }

    /** `parse_ipv4_properties` and `parse_ipv6_properties`: the result replaces `was`. */
    method ParseProperties(was: Option<Sub>, settings: Option<seq<IpSettings.Prop>>) returns (sub: Option<Sub>)
      modifies this
      ensures (State(), sub) == Replace(old(State()), fails, was, Ip(settings))
    {
      lost := lost + One(was);
      var block := Allocate();
      if block == None {
        return None;
      }
      var ip := IpSettings.Parse(settings);
      return Some(Sub(block.value, ip));
    }

    /** `update_data_context` */
    method UpdateDataContext(dc: Dc, p: Prop) returns (dc': Dc)
      modifies this
      ensures (State(), dc') == PropStep(old(State()), fails, dc, p)
    {
      dc' := dc;
      match p {
        case ActiveProp(on) => dc' := dc.(data := dc.data.(active := on));
        case TextProp(text, value) =>
          if |value| <= MAX_APN_DOMAIN_LENGTH {
            dc' := dc.(data := dc.data.(texts := dc.data.texts[text := value]));
          }
        case EnumProp(enumerated, value) =>
          dc' := dc.(data := dc.data.(enums := dc.data.enums[enumerated := Converted(enumerated, value)]));
        case SettingsProp(settings) =>
          var sub := ParseProperties(dc.ipv4, settings);
          dc' := dc.(ipv4 := sub);
        case Ipv6SettingsProp(settings) =>
          var sub := ParseProperties(dc.ipv6, settings);
          dc' := dc.(ipv6 := sub);
        case OtherProp =>
      }
    }

    /** `update_data_contexts` */
    method UpdateDataContexts(dc: Dc, props: seq<Prop>) returns (dc': Dc)
      modifies this
      ensures (State(), dc') == Props(old(State()), fails, dc, props)
    {
      ghost var m := State();
      dc' := dc;
      var k := 0;
      while k < |props|
        invariant 0 <= k <= |props|
        invariant (State(), dc') == Props(m, fails, dc, props[..k])
      {
        assert Front(props[..k + 1]) == props[..k];
        dc' := UpdateDataContext(dc', props[k]);
        k := k + 1;
      }
      assert props[..k] == props;
    }

    method FreeContext(dc: Dc)
      requires SoundDc(dc) && Owned(dc) <= live
      modifies this`live
      ensures State() == FreeAll(old(State()), Owned(dc))
    {
      if dc.ipv4.Some? {
        Free(dc.ipv4.value.block);
      }
      if dc.ipv6.Some? {
        Free(dc.ipv6.value.block);
      }
      Free(dc.settings);
      Free(dc.block);
      assert live == old(live) - Owned(dc);
    }

    method NewContext(path: string) returns (dc: Option<Dc>)
      modifies this
      ensures (State(), dc) == New(old(State()), fails, path)
    {
      var block := Allocate();
      if block == None {
        return None;
      }
      var settings := Allocate();
      if settings == None {
        Free(block.value);
        return None;
      }
      return Some(Dc(block.value, settings.value, None, None, Blank(path)));
    }

    /** The loop over the list; index contexts are in result at the end. */
    method Decode(entries: seq<Entry>, result: array<Dc>, ghost base: set<nat>) returns (index: nat)
      requires result.Length == MAX_DATA_CALL_LIST_SIZE && Sound(State(), base, [])
      modifies this, result
      ensures index <= result.Length
      ensures (State(), result[..index]) == DecodeList(old(State()), fails, entries, [])
      ensures Sound(State(), base, result[..index])
    {
      ghost var m := State();
      index := 0;
      var k := 0;
      while k < |entries|
        invariant 0 <= k <= |entries| && 0 <= index < result.Length
        invariant Sound(State(), base, result[..index])
        invariant DecodeList(State(), fails, entries[k..], result[..index]) == DecodeList(m, fails, entries, [])
      {
        ghost var dcs := result[..index];
        NewKeeps(State(), fails, entries[k].path, base, dcs);
        var dc := NewContext(entries[k].path);
        if dc == None {
          return;
        }
        assert entries[k..][1..] == entries[k + 1..];
        index := KeepOne(dc.value, entries[k].props, result, index, base);
        if index >= MAX_DATA_CALL_LIST_SIZE {
          return;
        }
        k := k + 1;
      }
    }

    /** One turn of the loop after its two allocations. */
    method KeepOne(dc: Dc, props: seq<Prop>, result: array<Dc>, index: nat, ghost base: set<nat>) returns (index': nat)
      requires index < result.Length && Holds(State(), base, result[..index], dc)
      modifies this, result
      ensures index <= index' <= result.Length
      ensures (State(), result[..index']) == Keep(old(State()), fails, dc, props, old(result[..index]))
      ensures Sound(State(), base, result[..index'])
    {
      ghost var dcs := result[..index];
      KeepKeeps(State(), fails, base, dcs, dc, props);
      PropsKeep(State(), fails, base, dcs, dc, props);
      var dc' := UpdateDataContexts(dc, props);
      FreeKeeps(State(), base, dcs, dc');
      if dc'.data.active {
        result[index] := dc';
        assert result[..index + 1] == dcs + [dc'];
        return index + 1;
      }
      FreeContext(dc');
      return index;
    }

    /** The loop after the callback, from the last context to the first. */
    method FreeContexts(result: array<Dc>, count: nat, ghost base: set<nat>)
      requires count <= result.Length && Sound(State(), base, result[..count])
      modifies this`live
      ensures State() == FreeList(old(State()), result[..count])
    {
      ghost var m := State();
      var index := count;
      while index > 0
        invariant 0 <= index <= count
        invariant Sound(State(), base, result[..index])
        invariant FreeList(State(), result[..index]) == FreeList(m, result[..count])
      {
        index := index - 1;
        var dc := result[index];
        ghost var dcs := result[..index];
        assert result[..index + 1] == dcs + [dc] && Front(dcs + [dc]) == dcs;
        HoldsAsLast(State(), base, dcs, dc);
        FreeKeeps(State(), base, dcs, dc);
        FreeContext(dc);
      }
      assert result[..index] == [];
    }

    /** `data_connection_list_query_done`: what the callback is given, if it is called. */
    method ListQueryDone(hasHandler: bool, hasResult: bool, hasCallback: bool, message: Message) returns (seen: Option<Seen>)
      requires Parts(State(), live, {}) && lost == {}
      modifies this
      ensures (State(), seen) == QueryDone(old(State()), fails, hasHandler && hasResult && hasCallback, message)
    {
      if !hasHandler {
        return None;
      }
      if !hasResult {
        return None;
      }
      if !hasCallback {
        return None;
      }
      if !message.List? {
        return Some(Seen(ERROR, []));
      }
      ghost var base := live;
      var result := new Dc[MAX_DATA_CALL_LIST_SIZE];
      var index := Decode(message.entries, result, base);
      seen := Some(Seen(OK, Views(result[..index])));
      FreeContexts(result, index, base);
    }
  }
}
