/**
 * The pub schema model of sos.c: a pub is a titled collection of named,
 * typed value slots ("data elements"). Slots `0 .. elemCount-1` are in use;
 * `|data|` is the allocated capacity (elem_max). Slot indices are the
 * wire-level reference used by PUBLISH, so they never move.
 */
module Pubs {
  import opened Wrappers
  import opened Enums
  import opened Wire

  newtype int32 = x: int | -0x8000_0000 <= x < 0x8000_0000
  newtype int64 = x: int | -0x8000_0000_0000_0000 <= x < 0x8000_0000_0000_0000

  /** The SOS_val union, as a sum type over the INT, LONG, DOUBLE and STRING
      kinds; a BYTES value is not modelled. */
  datatype Val = IntV(i: int32) | LongV(l: int64) | DoubleV(d: Float64) | StrV(s: string)

  /** `(SOS_val) 0`, what SOS_get_val answers for an unknown name. */
  const NullVal := IntV(0)

  // sizeof(int), sizeof(long), sizeof(double) on the LP64 targets the source builds for.
  const IntBytes := 4
  const LongBytes := 8
  const DoubleBytes := 8

  function TypeOf(v: Val): ValType
  {
    match v
    case IntV(_) => Int
    case LongV(_) => Long
    case DoubleV(_) => Double
    case StrV(_) => String
  }

  /** val_len as SOS_pack computes it: the C size of a number, strlen of a
      string (the terminator is not counted). */
  function ValLen(v: Val): nat
  {
    match v
    case IntV(_) => IntBytes
    case LongV(_) => LongBytes
    case DoubleV(_) => DoubleBytes
    case StrV(s) => |s|
  }

  datatype Times = Times(pack: Float64, send: Float64, recv: Float64)

  const ZeroTimes := Times(ZeroTime, ZeroTime, ZeroTime)

  /** One data element. `vtype` is kept apart from `val` because the daemon
      learns a slot's type from an ANNOUNCE before it learns any value. */
  datatype Data = Data(guid: int, name: string, vtype: ValType, val: Val,
                       valLen: int, state: ValState, time: Times)

  /** A slot as SOS_new_pub_sized initialises it. */
  const FreshSlot := Data(0, "", Int, IntV(0), 0, Empty, ZeroTimes)

  /** A slot as SOS_expand_data leaves it: zeroed memory, so its state is
      ordinal 0, CLEAN, not EMPTY. */
  const ZeroSlot := Data(0, "", Int, IntV(0), 0, Clean, ZeroTimes)

  datatype Meta = Meta(channel: int, layer: int, nature: int,
                       priHint: int, scopeHint: int, retainHint: int)

  /** The identity fields an ANNOUNCE carries. */
  datatype Info = Info(nodeId: string, processId: int, threadId: int, commRank: int,
                       progName: string, progVer: string, pragmaLen: int,
                       pragmaMsg: string, title: string, meta: Meta)

  /** The `announced` field: 0/1 on a client, SOSD_PUB_ANN_* on the daemon. */
  datatype AnnState = NotAnnounced | Announced | AnnDirty | AnnLocal | AnnCloud

  datatype Pub = Pub(guid: int, info: Info, announced: AnnState,
                     elemCount: nat, data: seq<Data>)
  {
    function ElemMax(): nat { |data| }
  }

  /** Who creates the pub: a client stamps it with a GUID from its pool and
      with its own node/process/program identity; the daemon uses -1; any
      other role (listener, aggregator, analytics, ...) draws a GUID from its
      pool but copies no identity. */
  datatype Creator =
    | ClientCreator(pubGuid: int, nodeId: string, processId: int, progName: string)
    | DaemonCreator
    | OtherRoleCreator(pubGuid: int)

  /** channel 0, SOS_LAYER_APP, SOS_NATURE_SOS and the three *_DEFAULT hints. */
  const DefaultMeta := Meta(0, 1, 10, 0, 0, 0)

  lemma DefaultMetaNames()
    ensures EnumStr(DefaultMeta.layer, LAYER) == "SOS_LAYER_APP"
    ensures EnumStr(DefaultMeta.nature, NATURE) == "SOS_NATURE_SOS"
    ensures EnumStr(DefaultMeta.priHint, PRI) == "SOS_PRI_DEFAULT"
    ensures EnumStr(DefaultMeta.scopeHint, SCOPE) == "SOS_SCOPE_DEFAULT"
    ensures EnumStr(DefaultMeta.retainHint, RETAIN) == "SOS_RETAIN_DEFAULT"
  {
  }

  // ---------------------------------------------------------------------
  // Invariants

  predicate Valid(p: Pub) { p.elemCount <= |p.data| }

  ghost predicate UniqueNames(p: Pub)
    requires Valid(p)
  {
    forall i, j :: 0 <= i < j < p.elemCount ==> p.data[i].name != p.data[j].name
  }

  /** Every slot in use holds a value of its declared type, with the length
      SOS_pack gives that value. Holds of every pub a client builds. */
  ghost predicate Consistent(p: Pub)
    requires Valid(p)
  {
    forall i :: 0 <= i < p.elemCount ==>
      p.data[i].vtype == TypeOf(p.data[i].val) && p.data[i].valLen == ValLen(p.data[i].val)
  }

  ghost predicate ClientPub(p: Pub)
  {
    Valid(p) && UniqueNames(p) && Consistent(p)
  }

  // ---------------------------------------------------------------------
  // Creation and growth

  /** SOS_new_pub_sized. */
  function NewPubSized(title: string, newSize: nat, creator: Creator): (p: Pub)
    ensures ClientPub(p)
    ensures p.elemCount == 0 && p.ElemMax() == newSize && p.announced == NotAnnounced
    ensures forall i :: 0 <= i < newSize ==>
      p.data[i].state == Empty && p.data[i].valLen == 0 && p.data[i].guid == 0
    ensures p.info.title == title
    ensures p.guid == (if creator.DaemonCreator? then -1 else creator.pubGuid)
    ensures p.info.meta == DefaultMeta
    ensures creator.ClientCreator? ==>
      p.info.nodeId == creator.nodeId && p.info.processId == creator.processId &&
      p.info.progName == creator.progName
    ensures !creator.ClientCreator? ==>
      p.info.nodeId == "" && p.info.processId == 0 && p.info.progName == ""
    ensures p.info.threadId == 0 && p.info.commRank == 0 && p.info.progVer == "" &&
      p.info.pragmaLen == 0 && p.info.pragmaMsg == ""
  {
    var info := Info("", 0, 0, 0, "", "", 0, "", title, DefaultMeta);
    var info' :=
      if creator.ClientCreator? then
        info.(nodeId := creator.nodeId, processId := creator.processId, progName := creator.progName)
      else info;
    Pub(if creator.DaemonCreator? then -1 else creator.pubGuid,
        info', NotAnnounced, 0, seq(newSize, _ => FreshSlot))
  }

  /** SOS_new_pub: the default capacity `elemMaxDefault` (SOS_DEFAULT_ELEM_MAX). */
  function NewPub(title: string, elemMaxDefault: nat, creator: Creator): (p: Pub)
    ensures ClientPub(p) && p.elemCount == 0 && p.ElemMax() == elemMaxDefault
    ensures p.announced == NotAnnounced && p.info.title == title
  {
    NewPubSized(title, elemMaxDefault, creator)
  }

  /** SOS_new_post: a pub with room for one element. */
  function NewPost(title: string, creator: Creator): (p: Pub)
    ensures ClientPub(p) && p.elemCount == 0 && p.ElemMax() == 1
    ensures p.announced == NotAnnounced && p.info.title == title
  {
    NewPubSized(title, 1, creator)
  }

  /** SOS_expand_data: capacity grows by exactly `chunk` (SOS_DEFAULT_ELEM_MAX)
      zeroed slots; the slots already there are untouched. */
  function Expand(p: Pub, chunk: nat): (r: Pub)
    ensures r.ElemMax() == p.ElemMax() + chunk
    ensures r.data[..|p.data|] == p.data
    ensures forall i :: |p.data| <= i < |r.data| ==> r.data[i] == ZeroSlot
    ensures r.(data := p.data) == p
  {
    p.(data := p.data + seq(chunk, _ => ZeroSlot))
  }

  // ---------------------------------------------------------------------
  // Lookup

  function FindFrom(p: Pub, name: string, i: nat): (r: Option<nat>)
    requires Valid(p) && i <= p.elemCount
    ensures r.Some? ==> i <= r.value < p.elemCount && p.data[r.value].name == name
                        && forall j :: i <= j < r.value ==> p.data[j].name != name
    ensures r.None? ==> forall j :: i <= j < p.elemCount ==> p.data[j].name != name
    decreases p.elemCount - i
  {
    if i == p.elemCount then None
    else if p.data[i].name == name then Some(i)
    else FindFrom(p, name, i + 1)
  }

  /** The linear name search SOS_pack and SOS_get_val share: the first slot in
      use carrying `name`, or None when no slot in use does. */
  function FindName(p: Pub, name: string): (r: Option<nat>)
    requires Valid(p)
    ensures r.Some? ==> r.value < p.elemCount && p.data[r.value].name == name
                        && forall j :: 0 <= j < r.value ==> p.data[j].name != name
    ensures r.None? <==> forall j :: 0 <= j < p.elemCount ==> p.data[j].name != name
  {
    FindFrom(p, name, 0)
  }

  /** SOS_get_val. */
  function GetVal(p: Pub, name: string): (v: Val)
    requires Valid(p)
    ensures (forall j :: 0 <= j < p.elemCount ==> p.data[j].name != name) ==> v == NullVal
    ensures forall j ::
      (0 <= j < p.elemCount && p.data[j].name == name &&
       forall k :: 0 <= k < j ==> p.data[k].name != name) ==> v == p.data[j].val
    ensures forall j :: 0 <= j < p.elemCount && p.data[j].name == name && UniqueNames(p) ==>
      v == p.data[j].val
  {
    match FindName(p, name)
    case Some(i) => p.data[i].val
    case None => NullVal
  }

  // ---------------------------------------------------------------------
  // Packing values

  /** The equality test SOS_pack applies before overwriting: ints, longs and
      strings compare by value; a double always counts as changed. */
  predicate Identical(stored: Val, v: Val)
  {
    !v.DoubleV? && stored == v
  }

  datatype PackOut = PackOut(index: nat, pub: Pub)

  /** The branch of SOS_pack for a name already in slot `i`: an identical
      value only refreshes the pack time; anything else is stored with its
      new type and length and the slot turns DIRTY. */
  function Overwrite(p: Pub, i: nat, v: Val, now: Float64): (r: Pub)
    requires Valid(p) && i < p.elemCount
    ensures Valid(r) && r.elemCount == p.elemCount && |r.data| == |p.data|
    ensures r.guid == p.guid && r.info == p.info && r.announced == p.announced
    ensures forall j :: 0 <= j < |p.data| && j != i ==> r.data[j] == p.data[j]
    ensures r.data[i].val == v && r.data[i].time.pack == now
    ensures r.data[i].name == p.data[i].name && r.data[i].guid == p.data[i].guid
    ensures r.data[i].time.(pack := now) == r.data[i].time
    ensures Identical(p.data[i].val, v) ==> r.data[i] == p.data[i].(time := p.data[i].time.(pack := now))
    ensures !Identical(p.data[i].val, v) ==>
      r.data[i].state == Dirty && r.data[i].vtype == TypeOf(v) && r.data[i].valLen == ValLen(v)
    ensures UniqueNames(p) ==> UniqueNames(r)
    ensures Consistent(p) ==> Consistent(r)
  {
    var d := p.data[i];
    var d' :=
      if Identical(d.val, v) then d.(time := d.time.(pack := now))
      else d.(val := v, vtype := TypeOf(v), state := Dirty, valLen := ValLen(v),
              time := d.time.(pack := now));
    p.(data := p.data[i := d'])
  }

  /** The branch of SOS_pack for a new name: it takes slot `elemCount`, after
      one SOS_expand_data when every slot is in use, gets `newGuid`, and the
      pub is marked as needing a fresh announcement. */
  function Append(p: Pub, name: string, v: Val, now: Float64, newGuid: int, chunk: nat): (r: Pub)
    requires Valid(p) && chunk > 0
    ensures Valid(r) && r.elemCount == p.elemCount + 1
    ensures |r.data| == (if p.elemCount < |p.data| then |p.data| else |p.data| + chunk)
    ensures r.guid == p.guid && r.info == p.info && r.announced == NotAnnounced
    ensures forall j :: 0 <= j < p.elemCount ==> r.data[j] == p.data[j]
    ensures forall j :: p.elemCount < j < |r.data| ==>
      r.data[j] == (if j < |p.data| then p.data[j] else ZeroSlot)
    ensures var d := r.data[p.elemCount];
      d.guid == newGuid && d.name == name && d.val == v && d.state == Dirty
      && d.vtype == TypeOf(v) && d.valLen == ValLen(v) && d.time.pack == now
    ensures Consistent(p) ==> Consistent(r)
  {
    var q := if p.elemCount < |p.data| then p else Expand(p, chunk);
    var i := p.elemCount;
    var d := q.data[i];
    var d' := d.(guid := newGuid, name := name, vtype := TypeOf(v), val := v,
                 valLen := ValLen(v), state := Dirty, time := d.time.(pack := now));
    q.(announced := NotAnnounced, elemCount := i + 1, data := q.data[i := d'])
  }

  /** SOS_pack. `newGuid` is the GUID SOS_uid_next hands out; it is consumed
      only when `name` is new. `chunk` is SOS_DEFAULT_ELEM_MAX. */
  function Pack(p: Pub, name: string, v: Val, now: Float64, newGuid: int, chunk: nat): (r: PackOut)
    requires Valid(p) && chunk > 0
    ensures Valid(r.pub) && p.elemCount <= r.pub.elemCount
    ensures FindName(r.pub, name) == Some(r.index)
    ensures r.pub.data[r.index].val == v && r.pub.data[r.index].time.pack == now
    ensures forall j :: 0 <= j < p.elemCount && j != r.index ==> r.pub.data[j] == p.data[j]
    ensures r.pub.guid == p.guid && r.pub.info == p.info
    ensures UniqueNames(p) ==> UniqueNames(r.pub)
    ensures Consistent(p) ==> Consistent(r.pub)
    // an existing name keeps its slot, its GUID and the schema
    ensures FindName(p, name).Some? ==>
      r.index == FindName(p, name).value && r.pub == Overwrite(p, r.index, v, now)
    // a new name is appended, after growing by one chunk when full
    ensures FindName(p, name).None? ==>
      r.index == p.elemCount && r.pub == Append(p, name, v, now, newGuid, chunk)
  {
    match FindName(p, name)
    case Some(i) =>
      var q := Overwrite(p, i, v, now);
      assert forall j :: 0 <= j < i ==> q.data[j].name != name by {
        assert forall j :: 0 <= j < i ==> q.data[j] == p.data[j];
      }
      PackOut(i, q)
    case None =>
      var q := Append(p, name, v, now, newGuid, chunk);
      assert q.data[p.elemCount].name == name;
      assert UniqueNames(p) ==> UniqueNames(q) by {
        assert forall j :: 0 <= j < p.elemCount ==> q.data[j].name != name;
      }
      PackOut(p.elemCount, q)
  }

  /** SOS_repack: update slot `index` in place, interpreting `v` by the slot's
      declared type, and always mark it DIRTY. Only a changed string gets a new
      val_len; numeric lengths are left as they were. */
  function Repack(p: Pub, index: nat, v: Val, now: Float64): (r: Pub)
    requires Valid(p) && index < p.elemCount
    requires TypeOf(v) == p.data[index].vtype
    ensures Valid(r) && r.elemCount == p.elemCount && |r.data| == |p.data|
    ensures r.guid == p.guid && r.info == p.info && r.announced == p.announced
    ensures forall j :: 0 <= j < |p.data| && j != index ==> r.data[j] == p.data[j]
    ensures r.data[index].state == Dirty && r.data[index].val == v
    ensures r.data[index].guid == p.data[index].guid
    ensures r.data[index].name == p.data[index].name
    ensures r.data[index].vtype == p.data[index].vtype
    ensures r.data[index].time.pack == now
    ensures r.data[index].valLen ==
      (if v.StrV? && p.data[index].val != v then |v.s| else p.data[index].valLen)
    ensures UniqueNames(p) ==> UniqueNames(r)
    ensures Consistent(p) ==> Consistent(r)
  {
    var d := p.data[index];
    var d' :=
      if v.StrV? then
        if d.val == v then d.(time := d.time.(pack := now))
        else d.(val := v, valLen := |v.s|, time := d.time.(pack := now))
      else d.(val := v, time := d.time.(pack := now));
    p.(data := p.data[index := d'.(state := Dirty)])
  }

  // ---------------------------------------------------------------------
  // Properties relating several operations

  /** Reading a name back after packing it yields the packed value. */
  lemma PackThenGet(p: Pub, name: string, v: Val, now: Float64, newGuid: int, chunk: nat)
    requires ClientPub(p) && chunk > 0
    ensures GetVal(Pack(p, name, v, now, newGuid, chunk).pub, name) == v
  {
  }

  /** A lookup only depends on the names of the slots in use: a pub that
      agrees on them with another, up to one extra slot not carrying `name`,
      answers the same. */
  lemma FindNameAgrees(p: Pub, q: Pub, name: string)
    requires Valid(p) && Valid(q)
    requires q.elemCount == p.elemCount || (q.elemCount == p.elemCount + 1 && q.data[p.elemCount].name != name)
    requires forall j :: 0 <= j < p.elemCount ==> q.data[j].name == p.data[j].name
    ensures FindName(q, name) == FindName(p, name)
  {
    match FindName(p, name)
    case Some(k) =>
      assert q.data[k].name == name;
    case None =>
      assert forall j :: 0 <= j < q.elemCount ==> q.data[j].name != name;
  }

  /** Packing one name leaves the slot and value found for every other name as they were. */
  lemma PackLeavesOthers(p: Pub, name: string, other: string, v: Val,
                         now: Float64, newGuid: int, chunk: nat)
    requires Valid(p) && chunk > 0 && other != name
    ensures FindName(Pack(p, name, v, now, newGuid, chunk).pub, other) == FindName(p, other)
    ensures GetVal(Pack(p, name, v, now, newGuid, chunk).pub, other) == GetVal(p, other)
  {
    var r := Pack(p, name, v, now, newGuid, chunk);
    assert forall j :: 0 <= j < p.elemCount && j != r.index ==> r.pub.data[j] == p.data[j];
    assert r.pub.data[r.index].name == name;
    if FindName(p, name).Some? {
      assert r.index < p.elemCount && p.data[r.index].name == name;
    }
    FindNameAgrees(p, r.pub, other);
  }

  /** Repacking slot `index` is seen by a lookup of that slot's name. */
  lemma RepackThenGet(p: Pub, index: nat, v: Val, now: Float64)
    requires ClientPub(p) && index < p.elemCount && TypeOf(v) == p.data[index].vtype
    ensures FindName(Repack(p, index, v, now), p.data[index].name) == Some(index)
    ensures GetVal(Repack(p, index, v, now), p.data[index].name) == v
  {
    var r := Repack(p, index, v, now);
    assert r.data[index].name == p.data[index].name;
  }

  /** Packing an identical int, long or string value twice changes nothing but
      the pack timestamp: no slot turns DIRTY a second time. */
  lemma RepeatedPackKeepsState(p: Pub, name: string, v: Val, t1: Float64, t2: Float64,
                               g1: int, g2: int, chunk: nat)
    requires ClientPub(p) && chunk > 0 && !v.DoubleV?
    ensures var r1 := Pack(p, name, v, t1, g1, chunk);
            var r2 := Pack(r1.pub, name, v, t2, g2, chunk);
            r2.index == r1.index && r2.pub.elemCount == r1.pub.elemCount
            && r2.pub.data[r2.index].state == r1.pub.data[r1.index].state
            && r2.pub.data[r2.index].time.pack == t2
  {
  }

  /** A double is always treated as a change: packing it marks its slot DIRTY
      even when the bits are the same. */
  lemma DoubleAlwaysDirty(p: Pub, name: string, g: Float64, now: Float64, newGuid: int, chunk: nat)
    requires Valid(p) && chunk > 0
    ensures var r := Pack(p, name, DoubleV(g), now, newGuid, chunk);
            r.pub.data[r.index].state == Dirty
  {
  }

  predicate DistinctNames(names: seq<string>)
  {
    forall i, j :: 0 <= i < j < |names| ==> names[i] != names[j]
  }

  /** What PackDistinct has established after packing the first `n` names. */
  ghost predicate PackedPrefix(p: Pub, names: seq<string>, base: int, n: nat, q: Pub)
  {
    && n <= |names|
    && ClientPub(p) && ClientPub(q)
    && q.elemCount == p.elemCount + n
    && (forall k :: 0 <= k < p.elemCount ==> q.data[k] == p.data[k])
    && (forall k :: 0 <= k < n ==> FindName(q, names[k]) == Some(p.elemCount + k))
    && (forall j :: p.elemCount <= j < q.elemCount ==> q.data[j].guid == base + (j - p.elemCount))
    && (forall k :: n <= k < |names| ==> FindName(q, names[k]).None?)
  }

  /** One step of PackDistinct: a new name lands in slot `elemCount`, takes
      the next GUID, and every other name keeps its slot. */
  lemma PackNewName(p: Pub, names: seq<string>, base: int, n: nat, q: Pub, v: Val, now: Float64, chunk: nat)
    requires chunk > 0 && DistinctNames(names) && n < |names|
    requires PackedPrefix(p, names, base, n, q)
    ensures PackedPrefix(p, names, base, n + 1, Pack(q, names[n], v, now, base + n, chunk).pub)
  {
    var r := Pack(q, names[n], v, now, base + n, chunk).pub;
    PackAppends(q, names[n], v, now, base + n, chunk);
    PackLeavesRest(q, names, n, v, now, base + n, chunk);
    PrefixStep(p, names, base, n, q, r);
  }

  /** Packing `names[n]` leaves every other name of a distinct list where it was. */
  lemma PackLeavesRest(q: Pub, names: seq<string>, n: nat, v: Val, now: Float64, newGuid: int, chunk: nat)
    requires Valid(q) && chunk > 0 && DistinctNames(names) && n < |names|
    ensures var r := Pack(q, names[n], v, now, newGuid, chunk).pub;
      forall k :: 0 <= k < |names| && k != n ==> FindName(r, names[k]) == FindName(q, names[k])
  {
    forall k | 0 <= k < |names| && k != n
      ensures FindName(Pack(q, names[n], v, now, newGuid, chunk).pub, names[k]) == FindName(q, names[k])
    {
      PackLeavesOthers(q, names[n], names[k], v, now, newGuid, chunk);
    }
  }

  /** PackedPrefix extends by one name, whatever produced the new pub `r`. */
  lemma PrefixStep(p: Pub, names: seq<string>, base: int, n: nat, q: Pub, r: Pub)
    requires n < |names| && PackedPrefix(p, names, base, n, q) && ClientPub(r)
    requires r.elemCount == q.elemCount + 1 && r.data[q.elemCount].guid == base + n
    requires forall k :: 0 <= k < q.elemCount ==> r.data[k] == q.data[k]
    requires FindName(r, names[n]) == Some(q.elemCount)
    requires forall k :: 0 <= k < |names| && k != n ==> FindName(r, names[k]) == FindName(q, names[k])
    ensures PackedPrefix(p, names, base, n + 1, r)
  {
    forall j | p.elemCount <= j < r.elemCount
      ensures r.data[j].guid == base + (j - p.elemCount)
    {
      if j < q.elemCount {
        assert r.data[j] == q.data[j];
      }
    }
  }

  /** Packing a name a client pub does not hold appends it at `elemCount`
      with the GUID drawn for it, and keeps the pub a client pub. */
  lemma PackAppends(q: Pub, name: string, v: Val, now: Float64, newGuid: int, chunk: nat)
    requires ClientPub(q) && chunk > 0 && FindName(q, name).None?
    ensures var o := Pack(q, name, v, now, newGuid, chunk);
      && ClientPub(o.pub)
      && o.index == q.elemCount && o.pub.elemCount == q.elemCount + 1
      && FindName(o.pub, name) == Some(q.elemCount)
      && o.pub.data[q.elemCount].guid == newGuid
      && forall k :: 0 <= k < q.elemCount ==> o.pub.data[k] == q.data[k]
  {
  }

  /** Pack a value under each of `names` in turn, drawing GUIDs `base`,
      `base + 1`, ... . Distinct new names each take a fresh slot, and the
      capacity grows to cover them. */
  method PackDistinct(p: Pub, names: seq<string>, v: Val, now: Float64, base: int, chunk: nat)
    returns (q: Pub)
    requires ClientPub(p) && chunk > 0 && DistinctNames(names)
    requires forall k :: 0 <= k < |names| ==> FindName(p, names[k]).None?
    ensures ClientPub(q)
    ensures q.elemCount == p.elemCount + |names|
    ensures q.elemCount <= q.ElemMax()
    ensures forall k :: 0 <= k < |names| ==> FindName(q, names[k]) == Some(p.elemCount + k)
    ensures forall j :: p.elemCount <= j < q.elemCount ==> q.data[j].guid == base + (j - p.elemCount)
    ensures forall k :: 0 <= k < p.elemCount ==> q.data[k] == p.data[k]
  {
    q := p;
    var n := 0;
    while n < |names|
      invariant PackedPrefix(p, names, base, n, q)
    {
      PackNewName(p, names, base, n, q, v, now, chunk);
      q := Pack(q, names[n], v, now, base + n, chunk).pub;
      n := n + 1;
    }
  }
}
