/**
 * The ANNOUNCE and PUBLISH messages: how a client's pub is written into a
 * message (SOS_announce_to_buffer, SOS_publish_to_buffer) and how the
 * daemon applies one to its copy (SOS_announce_from_buffer,
 * SOS_publish_from_buffer). Messages are modelled at the level of typed
 * fields (module Wire); each format string of the source becomes a string of
 * field kinds.
 */
module Serial {
  import opened Wrappers
  import opened Enums
  import opened Wire
  import opened Pubs

  /** The conversion character a field is packed with. */
  function Kind(f: Field): char
  {
    match f
    case I32(_) => 'l'
    case I64(_) => 'q'
    case Dbl(_) => 'g'
    case Str(_) => 's'
  }

  /** `fs` starts with fields of the kinds `fmt` lists. */
  predicate Conforms(fs: seq<Field>, fmt: string)
  {
    |fmt| <= |fs| && forall i :: 0 <= i < |fmt| ==> Kind(fs[i]) == fmt[i]
  }

  const InfoFormat := "slllsslsslllllll"
  const ElemFormat := "qsl"
  const RecordFormat := "lggl"

  // ---------------------------------------------------------------------
  // ANNOUNCE

  /** The pub definition, in the order the source packs it. */
  function InfoFields(info: Info, elemCount: int): (fs: seq<Field>)
    ensures |fs| == |InfoFormat| && Conforms(fs, InfoFormat)
  {
    [Str(info.nodeId), I32(info.processId), I32(info.threadId), I32(info.commRank),
     Str(info.progName), Str(info.progVer), I32(info.pragmaLen), Str(info.pragmaMsg),
     Str(info.title), I32(elemCount), I32(info.meta.channel), I32(info.meta.layer),
     I32(info.meta.nature), I32(info.meta.priHint), I32(info.meta.scopeHint),
     I32(info.meta.retainHint)]
  }

  /** Read the pub definition back: the identity fields, the element count and
      what follows. */
  function ParseInfo(fs: seq<Field>): (r: Result<(Info, int, seq<Field>)>)
    ensures r.Success? <==> Conforms(fs, InfoFormat)
    ensures r.Success? ==> InfoFields(r.value.0, r.value.1) + r.value.2 == fs
  {
    if !Conforms(fs, InfoFormat) then Failure(if |fs| < |InfoFormat| then Truncated else WrongKind)
    else
      var meta := Meta(fs[10].i, fs[11].i, fs[12].i, fs[13].i, fs[14].i, fs[15].i);
      var info := Info(fs[0].s, fs[1].i, fs[2].i, fs[3].i, fs[4].s, fs[5].s, fs[6].i,
                       fs[7].s, fs[8].s, meta);
      assert InfoFields(info, fs[9].i) == fs[..16];
      Success((info, fs[9].i, fs[16..]))
  }

  /** What an ANNOUNCE tells about one element: its GUID, name and type. */
  datatype ElemDef = ElemDef(guid: int, name: string, vtype: ValType)

  function DefOf(d: Data): ElemDef { ElemDef(d.guid, d.name, d.vtype) }

  /** The schema of a pub: the definitions of its slots in use. */
  function Schema(p: Pub): (s: seq<ElemDef>)
    requires Valid(p)
    ensures |s| == p.elemCount
    ensures forall i :: 0 <= i < p.elemCount ==> s[i] == DefOf(p.data[i])
  {
    seq(p.elemCount, i requires 0 <= i < p.elemCount && Valid(p) => DefOf(p.data[i]))
  }

  function DefFields(e: ElemDef): (fs: seq<Field>)
    ensures Conforms(fs, ElemFormat) && |fs| == |ElemFormat|
  {
    [I64(e.guid), Str(e.name), I32(ValTypeOrdinal(e.vtype))]
  }

  function DefsFields(es: seq<ElemDef>): (fs: seq<Field>)
    ensures |fs| == 3 * |es|
  {
    if es == [] then [] else DefFields(es[0]) + DefsFields(es[1..])
  }

  /** Read `n` element definitions. A type ordinal outside SOS_VAL_TYPE is
      refused here; the source stores it unchecked. */
  function ParseDefs(fs: seq<Field>, n: nat): (r: Result<(seq<ElemDef>, seq<Field>)>)
    ensures r.Success? ==> |r.value.0| == n && DefsFields(r.value.0) + r.value.1 == fs
    decreases n
  {
    if n == 0 then Success(([], fs))
    else if !Conforms(fs, ElemFormat) then Failure(if |fs| < 3 then Truncated else WrongKind)
    else
      match ValTypeFromOrdinal(fs[2].i)
      case None => Failure(BadType)
      case Some(t) =>
        match ParseDefs(fs[3..], n - 1)
        case Failure(err) => Failure(err)
        case Success(rest) =>
          ParseDefStep(fs, t, rest.0, rest.1);
          Success(([ElemDef(fs[0].q, fs[1].s, t)] + rest.0, rest.1))
  }

  /** One element definition read from the front of `fs`, followed by the
      ones read from the rest, re-encodes to `fs`. */
  lemma ParseDefStep(fs: seq<Field>, t: ValType, es: seq<ElemDef>, tail: seq<Field>)
    requires Conforms(fs, ElemFormat) && ValTypeFromOrdinal(fs[2].i) == Some(t)
    requires DefsFields(es) + tail == fs[3..]
    ensures DefsFields([ElemDef(fs[0].q, fs[1].s, t)] + es) + tail == fs
  {
    var e := ElemDef(fs[0].q, fs[1].s, t);
    assert DefFields(e) == fs[..3];
    assert ([e] + es)[1..] == es;
    assert DefsFields([e] + es) == fs[..3] + DefsFields(es);
    assert fs == fs[..3] + fs[3..];
  }

  lemma {:induction false} ParseDefsRoundTrip(es: seq<ElemDef>, rest: seq<Field>)
    ensures ParseDefs(DefsFields(es) + rest, |es|) == Success((es, rest))
  {
    if es != [] {
      var fs := DefsFields(es) + rest;
      assert fs[..3] == DefFields(es[0]);
      assert fs[3..] == DefsFields(es[1..]) + rest;
      assert Conforms(fs, ElemFormat);
      ValTypeTable(es[0].vtype);
      assert ValTypeFromOrdinal(fs[2].i) == Some(es[0].vtype);
      assert ElemDef(fs[0].q, fs[1].s, es[0].vtype) == es[0];
      ParseDefsRoundTrip(es[1..], rest);
      assert [es[0]] + es[1..] == es;
    } else {
      assert DefsFields(es) + rest == rest;
    }
  }

  /** SOS_announce_to_buffer. `myGuid` is the sender (SOS.my_guid). */
  function AnnounceToBuffer(p: Pub, myGuid: int, w: Widths): (m: Message)
    requires Valid(p)
    ensures m.header.msgType == MsgTypeOrdinal(Announce)
    ensures m.header.msgFrom == myGuid && m.header.pubGuid == p.guid
    ensures m.header.msgSize == MsgSize(w, m.body)
    ensures ParseInfo(m.body) == Success((p.info, p.elemCount, DefsFields(Schema(p))))
  {
    var body := InfoFields(p.info, p.elemCount) + DefsFields(Schema(p));
    assert body[..16] == InfoFields(p.info, p.elemCount);
    Message(Header(MsgSize(w, body), MsgTypeOrdinal(Announce), myGuid, p.guid), body)
  }

  /** `while (elem_max < elem) SOS_expand_data(pub)`: grow by whole chunks
      until `n` slots fit, and no further. */
  function ExpandUntil(p: Pub, n: int, chunk: nat): (r: Pub)
    requires chunk > 0
    ensures r.(data := p.data) == p
    ensures n <= |r.data| && |p.data| <= |r.data|
    ensures |p.data| < n ==> |r.data| < n + chunk
    ensures |p.data| >= n ==> r == p
    ensures exists k: nat :: |r.data| == |p.data| + k * chunk
    ensures forall i :: 0 <= i < |p.data| ==> r.data[i] == p.data[i]
    ensures forall i :: |p.data| <= i < |r.data| ==> r.data[i] == ZeroSlot
    decreases n - |p.data|
  {
    if |p.data| >= n then
      assert |p.data| == |p.data| + 0 * chunk;
      p
    else
      var e := Expand(p, chunk);
      var r := ExpandUntil(e, n, chunk);
      var k: nat :| |r.data| == |e.data| + k * chunk;
      assert |r.data| == |p.data| + (k + 1) * chunk;
      r
  }

  /** Install element definitions in the first `|defs|` slots; value, length,
      state and times stay as they were. */
  function InstallDefs(data: seq<Data>, defs: seq<ElemDef>): (r: seq<Data>)
    requires |defs| <= |data|
    ensures |r| == |data|
    ensures forall i :: 0 <= i < |defs| ==>
      r[i] == data[i].(guid := defs[i].guid, name := defs[i].name, vtype := defs[i].vtype)
    ensures forall i :: |defs| <= i < |data| ==> r[i] == data[i]
  {
    seq(|data|, i requires 0 <= i < |data| =>
      if i < |defs| then data[i].(guid := defs[i].guid, name := defs[i].name, vtype := defs[i].vtype)
      else data[i])
  }

  /** SOS_announce_from_buffer applied to the daemon's copy `q`. A negative
      element count, a missing or mistyped field, or an unknown type ordinal
      is an error here; trailing fields are ignored as in the source. */
  function AnnounceFromBuffer(q: Pub, m: Message, chunk: nat): (r: Result<Pub>)
    requires chunk > 0
    ensures r.Success? ==> Valid(r.value) && r.value.guid == m.header.pubGuid
    ensures r.Success? ==> r.value.announced == q.announced
    ensures r.Success? ==> |q.data| <= |r.value.data|
  {
    match ParseInfo(m.body)
    case Failure(e) => Failure(e)
    case Success((info, count, rest)) =>
      if count < 0 then Failure(BadCount)
      else
        match ParseDefs(rest, count)
        case Failure(e) => Failure(e)
        case Success((defs, _)) =>
          var g := ExpandUntil(q, count, chunk);
          Success(g.(guid := m.header.pubGuid, info := info, elemCount := count,
                     data := InstallDefs(g.data, defs)))
  }

  /** Announcing a client pub to the daemon copies its GUID, identity,
      element count and schema, while the values, lengths, states and times
      the daemon already held are kept (fresh capacity is zeroed). */
  lemma AnnounceRoundTrip(p: Pub, q: Pub, myGuid: int, w: Widths, chunk: nat)
    requires Valid(p) && chunk > 0
    ensures var r := AnnounceFromBuffer(q, AnnounceToBuffer(p, myGuid, w), chunk);
      && r.Success?
      && r.value.guid == p.guid && r.value.info == p.info
      && r.value.elemCount == p.elemCount
      && Schema(r.value) == Schema(p)
      && (forall i :: 0 <= i < |r.value.data| ==>
            var d := r.value.data[i];
            var old' := if i < |q.data| then q.data[i] else ZeroSlot;
            d.val == old'.val && d.valLen == old'.valLen && d.state == old'.state && d.time == old'.time)
  {
    var m := AnnounceToBuffer(p, myGuid, w);
    ParseDefsRoundTrip(Schema(p), []);
    assert DefsFields(Schema(p)) + [] == DefsFields(Schema(p));
    var r := AnnounceFromBuffer(q, m, chunk);
    assert r.Success?;
    assert Schema(r.value) == Schema(p);
  }

  // ---------------------------------------------------------------------
  // PUBLISH

  /** A value field, packed by kind ("l", "q", "g" or "s"). */
  function ValField(v: Val): Field
  {
    match v
    case IntV(i) => I32(i as int)
    case LongV(l) => I64(l as int)
    case DoubleV(d) => Dbl(d)
    case StrV(s) => Str(s)
  }

  /** One record of a PUBLISH: "lggl" (slot, pack time, send time, val_len),
      then the value. */
  function RecordFields(elem: int, d: Data): (fs: seq<Field>)
    ensures Conforms(fs, RecordFormat) && |fs| == 5
  {
    [I32(elem), Dbl(d.time.pack), Dbl(d.time.send), I32(d.valLen), ValField(d.val)]
  }

  /** The slot after it has been sent: CLEAN, stamped with the send time. */
  function Sent(d: Data, send: Float64): Data
  {
    d.(state := Clean, time := d.time.(send := send))
  }

  /** The loop of SOS_publish_to_buffer over slots `i .. n-1`: every DIRTY
      slot is emitted, in slot order, and turned CLEAN. */
  function Flush(data: seq<Data>, i: nat, n: nat, send: Float64): (r: (seq<Field>, seq<Data>))
    requires i <= n <= |data|
    ensures |r.1| == |data|
    ensures forall j :: 0 <= j < |data| ==>
      r.1[j] == (if i <= j < n && data[j].state == Dirty then Sent(data[j], send) else data[j])
    ensures (forall j :: i <= j < n ==> data[j].state != Dirty) <==> r.0 == []
    decreases n - i
  {
    if i == n then ([], data)
    else
      var rest := Flush(data, i + 1, n, send);
      if data[i].state == Dirty then
        var d := Sent(data[i], send);
        (RecordFields(i, d) + rest.0, rest.1[i := d])
      else rest
  }

  datatype PublishOut = PublishOut(msg: Message, pub: Pub)

  /** SOS_publish_to_buffer. `send` is the SOS_TIME stamp taken at the start. */
  function PublishToBuffer(p: Pub, myGuid: int, send: Float64, w: Widths): (o: PublishOut)
    requires Valid(p)
    ensures o.msg.header.msgType == MsgTypeOrdinal(Publish)
    ensures o.msg.header.msgFrom == myGuid && o.msg.header.pubGuid == p.guid
    ensures o.msg.header.msgSize == MsgSize(w, o.msg.body)
    ensures o.pub.(data := p.data) == p && |o.pub.data| == |p.data|
    ensures forall j :: 0 <= j < |p.data| ==>
      o.pub.data[j] == (if j < p.elemCount && p.data[j].state == Dirty then Sent(p.data[j], send) else p.data[j])
    ensures forall j :: 0 <= j < p.elemCount ==> o.pub.data[j].state != Dirty
    ensures o.msg.body == [] <==> forall j :: 0 <= j < p.elemCount ==> p.data[j].state != Dirty
  {
    var f := Flush(p.data, 0, p.elemCount, send);
    PublishOut(Message(Header(MsgSize(w, f.0), MsgTypeOrdinal(Publish), myGuid, p.guid), f.0),
               p.(data := f.1))
  }

  /** Publishing again straight away sends no values. */
  lemma RepublishSendsNothing(p: Pub, myGuid: int, s1: Float64, s2: Float64, w: Widths)
    requires Valid(p)
    ensures var o1 := PublishToBuffer(p, myGuid, s1, w);
            PublishToBuffer(o1.pub, myGuid, s2, w).msg.body == []
  {
  }

  /** Read a value field as the slot's declared type says. A BYTES slot reads
      nothing (the source's switch has no case for it). */
  function DecodeVal(t: ValType, fs: seq<Field>): (r: Result<(Option<Val>, seq<Field>)>)
    ensures r.Success? && t != Bytes ==>
      |fs| > 0 && r.value.0.Some? && TypeOf(r.value.0.value) == t
      && ValField(r.value.0.value) == fs[0] && r.value.1 == fs[1..]
    ensures r.Success? && t == Bytes ==> r.value == (None, fs)
  {
    if t == Bytes then Success((None, fs))
    else if |fs| == 0 then Failure(Truncated)
    else
      match (t, fs[0])
      case (Int, I32(i)) =>
        if -0x8000_0000 <= i < 0x8000_0000 then Success((Some(IntV(i as int32)), fs[1..]))
        else Failure(BadValue)
      case (Long, I64(l)) =>
        if -0x8000_0000_0000_0000 <= l < 0x8000_0000_0000_0000 then Success((Some(LongV(l as int64)), fs[1..]))
        else Failure(BadValue)
      case (Double, Dbl(g)) => Success((Some(DoubleV(g)), fs[1..]))
      case (String, Str(s)) => Success((Some(StrV(s)), fs[1..]))
      case _ => Failure(WrongKind)
  }

  lemma DecodeValField(v: Val, rest: seq<Field>)
    ensures DecodeVal(TypeOf(v), [ValField(v)] + rest) == Success((Some(v), rest))
  {
    assert ([ValField(v)] + rest)[1..] == rest;
  }

  /** What one record does to the slot it names: new times, length and value;
      the state is left alone. */
  function Receive(d: Data, pack: Float64, send: Float64, valLen: int, v: Option<Val>): Data
  {
    d.(time := d.time.(pack := pack, send := send), valLen := valLen,
       val := if v.Some? then v.value else d.val)
  }

  /** The loop of SOS_publish_from_buffer: apply records until the message
      is used up. A slot index outside the pub's storage is an error here; the
      source indexes with it unchecked. */
  function ApplyRecords(q: Pub, fs: seq<Field>): (r: Result<Pub>)
    requires Valid(q)
    ensures r.Success? ==> r.value.(data := q.data) == q && |r.value.data| == |q.data|
    ensures r.Success? ==> forall j :: 0 <= j < |q.data| ==>
      r.value.data[j].state == q.data[j].state && DefOf(r.value.data[j]) == DefOf(q.data[j])
    decreases |fs|
  {
    if fs == [] then Success(q)
    else if !Conforms(fs, RecordFormat[..1]) then Failure(WrongKind)
    else if !Conforms(fs, RecordFormat) then Failure(Truncated)
    else
      var elem := fs[0].i;
      if !(0 <= elem < |q.data|) then Failure(BadSlot)
      else
        match DecodeVal(q.data[elem].vtype, fs[4..])
        case Failure(e) => Failure(e)
        case Success((v, rest)) =>
          var d := Receive(q.data[elem], fs[1].g, fs[2].g, fs[3].i, v);
          ApplyRecords(q.(data := q.data[elem := d]), rest)
  }

  /** SOS_publish_from_buffer. */
  function ApplyPublish(q: Pub, m: Message): (r: Result<Pub>)
    requires Valid(q)
    ensures r.Success? ==> r.value.(data := q.data) == q && |r.value.data| == |q.data|
    ensures r.Success? ==> forall j :: 0 <= j < |q.data| ==>
      r.value.data[j].state == q.data[j].state && DefOf(r.value.data[j]) == DefOf(q.data[j])
    ensures m.body == [] ==> r == Success(q)
  {
    ApplyRecords(q, m.body)
  }

  /** The daemon's view of a slot after the records for slots `i .. n-1`
      of `p` have been applied to its copy `q`. */
  function Delivered(qd: Data, pd: Data, send: Float64): Data
  {
    Receive(qd, pd.time.pack, send, pd.valLen, if qd.vtype == Bytes then None else Some(pd.val))
  }

  /** The daemon's copy agrees with the client on the types of slots `i .. n-1`. */
  ghost predicate SameTypes(p: Pub, q: Pub, i: nat, n: nat)
  {
    n <= |p.data| && n <= |q.data| &&
    forall j :: i <= j < n ==> q.data[j].vtype == p.data[j].vtype == TypeOf(p.data[j].val)
  }

  /** The daemon's slots after the records for slots `i .. n-1` of `p` have
      been applied to its copy `q`. */
  function Target(p: Pub, q: Pub, i: nat, n: nat, send: Float64): (t: seq<Data>)
    requires n <= |p.data|
    ensures |t| == |q.data|
    ensures forall j :: 0 <= j < |q.data| ==>
      t[j] == if i <= j < n && p.data[j].state == Dirty then Delivered(q.data[j], p.data[j], send) else q.data[j]
  {
    seq(|q.data|, j requires 0 <= j < |q.data| =>
      if i <= j < n && p.data[j].state == Dirty then Delivered(q.data[j], p.data[j], send) else q.data[j])
  }

  /** Applying one record of a well-typed slot: the slot receives it, and the
      rest of the message is applied to the result. */
  lemma ApplyOneRecord(q: Pub, i: nat, d: Data, tail: seq<Field>)
    requires Valid(q) && i < |q.data| && q.data[i].vtype == TypeOf(d.val)
    ensures ApplyRecords(q, RecordFields(i, d) + tail) ==
      ApplyRecords(q.(data := q.data[i := Receive(q.data[i], d.time.pack, d.time.send, d.valLen, Some(d.val))]), tail)
  {
    var fs := RecordFields(i, d) + tail;
    assert Conforms(fs, RecordFormat);
    assert Conforms(fs, RecordFormat[..1]);
    assert fs[4..] == [ValField(d.val)] + tail;
    DecodeValField(d.val, tail);
  }

  /** The slot a record reaches in the daemon's copy. */
  function Deliver(p: Pub, q: Pub, i: nat, send: Float64): Pub
    requires i < |p.data| && i < |q.data|
  {
    q.(data := q.data[i := Delivered(q.data[i], p.data[i], send)])
  }

  /** The records flushed from slots `i .. n-1` of `p`, applied to the
      daemon's copy `q`, deliver exactly the target slots. */
  ghost predicate Applied(p: Pub, q: Pub, i: nat, n: nat, send: Float64)
    requires Valid(q) && i <= n <= |p.data|
  {
    ApplyRecords(q, Flush(p.data, i, n, send).0) == Success(q.(data := Target(p, q, i, n, send)))
  }

  /** The step of FlushThenApply for a DIRTY slot `i`, given the claim for the
      slots after it. */
  lemma DirtyStep(p: Pub, q: Pub, i: nat, n: nat, send: Float64)
    requires Valid(q) && i < n && SameTypes(p, q, i, n) && p.data[i].state == Dirty
    requires Applied(p, Deliver(p, q, i, send), i + 1, n, send)
    ensures Applied(p, q, i, n, send)
  {
    var tail := Flush(p.data, i + 1, n, send).0;
    var q1 := Deliver(p, q, i, send);
    ApplyDirtyHead(p, q, i, n, send);
    assert ApplyRecords(q, Flush(p.data, i, n, send).0) == ApplyRecords(q1, tail);
    DeliverShift(p, q, i, n, send);
    assert q1.(data := Target(p, q1, i + 1, n, send)) == q.(data := Target(p, q, i, n, send));
  }

  /** The first record flushed from a DIRTY slot `i` delivers that slot. */
  lemma ApplyDirtyHead(p: Pub, q: Pub, i: nat, n: nat, send: Float64)
    requires Valid(q) && i < n && SameTypes(p, q, i, n) && p.data[i].state == Dirty
    ensures ApplyRecords(q, Flush(p.data, i, n, send).0)
      == ApplyRecords(Deliver(p, q, i, send), Flush(p.data, i + 1, n, send).0)
  {
    var tail := Flush(p.data, i + 1, n, send).0;
    var d := Sent(p.data[i], send);
    assert Flush(p.data, i, n, send).0 == RecordFields(i, d) + tail;
    ApplyOneRecord(q, i, d, tail);
    assert q.data[i].vtype != Bytes;
    assert Receive(q.data[i], d.time.pack, d.time.send, d.valLen, Some(d.val)) == Delivered(q.data[i], p.data[i], send);
  }

  /** Delivering DIRTY slot `i` keeps the daemon's copy well formed and in
      agreement on the later slot types, and the target for the later slots
      is the one for slots `i .. n-1`. */
  lemma DeliverShift(p: Pub, q: Pub, i: nat, n: nat, send: Float64)
    requires Valid(q) && i < n && SameTypes(p, q, i, n) && p.data[i].state == Dirty
    ensures var q1 := Deliver(p, q, i, send);
      Valid(q1) && SameTypes(p, q1, i + 1, n) && Target(p, q1, i + 1, n, send) == Target(p, q, i, n, send)
  {
    var q1 := Deliver(p, q, i, send);
    forall j | i + 1 <= j < n
      ensures q1.data[j].vtype == p.data[j].vtype == TypeOf(p.data[j].val)
    {
      assert q1.data[j] == q.data[j];
    }
    var t1 := Target(p, q1, i + 1, n, send);
    var t := Target(p, q, i, n, send);
    forall j | 0 <= j < |q.data|
      ensures t1[j] == t[j]
    {
      if j != i {
        assert q1.data[j] == q.data[j];
      }
    }
    assert t1 == t;
  }

  /** The step of FlushThenApply for a slot `i` that is not DIRTY. */
  lemma CleanStep(p: Pub, q: Pub, i: nat, n: nat, send: Float64)
    requires Valid(q) && i < n && SameTypes(p, q, i, n) && p.data[i].state != Dirty
    requires Applied(p, q, i + 1, n, send)
    ensures Applied(p, q, i, n, send)
  {
    assert Flush(p.data, i, n, send).0 == Flush(p.data, i + 1, n, send).0;
    var t1 := Target(p, q, i + 1, n, send);
    var t := Target(p, q, i, n, send);
    assert forall j :: 0 <= j < |q.data| ==> t1[j] == t[j];
    assert t1 == t;
  }

  /** With no slots left, nothing is sent and nothing changes. */
  lemma FlushNothing(p: Pub, q: Pub, n: nat, send: Float64)
    requires Valid(q) && n <= |p.data| && n <= |q.data|
    ensures Applied(p, q, n, n, send)
  {
    assert Target(p, q, n, n, send) == q.data;
  }

  lemma {:induction false} FlushApplied(p: Pub, q: Pub, i: nat, n: nat, send: Float64)
    requires Valid(q) && i <= n && SameTypes(p, q, i, n)
    ensures Applied(p, q, i, n, send)
    decreases n - i
  {
    if i == n {
      FlushNothing(p, q, n, send);
    } else if p.data[i].state == Dirty {
      DeliverShift(p, q, i, n, send);
      FlushApplied(p, Deliver(p, q, i, send), i + 1, n, send);
      DirtyStep(p, q, i, n, send);
    } else {
      FlushApplied(p, q, i + 1, n, send);
      CleanStep(p, q, i, n, send);
    }
  }

  /** Applying the records the client flushed from slots `i .. n-1` gives
      each DIRTY slot's value, length and times to the daemon's copy, and
      leaves every other slot alone. */
  lemma FlushThenApply(p: Pub, q: Pub, i: nat, n: nat, send: Float64)
    requires Valid(p) && Valid(q) && i <= n && SameTypes(p, q, i, n)
    ensures ApplyRecords(q, Flush(p.data, i, n, send).0) == Success(q.(data := Target(p, q, i, n, send)))
  {
    FlushApplied(p, q, i, n, send);
  }

  /** PUBLISH round trip: the daemon's copy, if it agrees on the slot types,
      receives exactly the client's DIRTY slots. */
  lemma PublishRoundTrip(p: Pub, q: Pub, myGuid: int, send: Float64, w: Widths)
    requires Valid(p) && Valid(q) && SameTypes(p, q, 0, p.elemCount)
    ensures ApplyPublish(q, PublishToBuffer(p, myGuid, send, w).msg)
      == Success(q.(data := Target(p, q, 0, p.elemCount, send)))
  {
    FlushThenApply(p, q, 0, p.elemCount, send);
  }

  /** After an ANNOUNCE of a consistent client pub, the daemon's copy agrees
      with it on every slot type. */
  lemma AnnounceAlignsTypes(p: Pub, q: Pub, myGuid: int, w: Widths, chunk: nat)
    requires ClientPub(p) && chunk > 0
    ensures var a := AnnounceFromBuffer(q, AnnounceToBuffer(p, myGuid, w), chunk);
      a.Success? && SameTypes(p, a.value, 0, p.elemCount)
  {
    AnnounceRoundTrip(p, q, myGuid, w, chunk);
    var a := AnnounceFromBuffer(q, AnnounceToBuffer(p, myGuid, w), chunk).value;
    assert forall j :: 0 <= j < p.elemCount ==> Schema(a)[j] == Schema(p)[j];
  }

  /** Applying a PUBLISH leaves the schema alone. */
  lemma PublishKeepsSchema(q: Pub, m: Message)
    requires Valid(q) && ApplyPublish(q, m).Success?
    ensures Valid(ApplyPublish(q, m).value) && Schema(ApplyPublish(q, m).value) == Schema(q)
  {
    var r := ApplyPublish(q, m).value;
    assert forall j :: 0 <= j < q.elemCount ==> Schema(r)[j] == Schema(q)[j];
  }

  /** A client pub announced and then published to the daemon: whatever the
      daemon's copy held before, it ends with the client's schema and with
      the value and length of every slot the client had DIRTY. */
  lemma AnnounceThenPublish(p: Pub, q: Pub, myGuid: int, send: Float64, w: Widths, chunk: nat)
    requires ClientPub(p) && Valid(q) && chunk > 0
    ensures var a := AnnounceFromBuffer(q, AnnounceToBuffer(p, myGuid, w), chunk);
      a.Success? &&
      var r := ApplyPublish(a.value, PublishToBuffer(p, myGuid, send, w).msg);
      && r.Success?
      && Schema(r.value) == Schema(p)
      && forall j :: 0 <= j < p.elemCount && p.data[j].state == Dirty ==>
           r.value.data[j].val == p.data[j].val && r.value.data[j].valLen == p.data[j].valLen
           && r.value.data[j].time.pack == p.data[j].time.pack && r.value.data[j].time.send == send
  {
    AnnounceAlignsTypes(p, q, myGuid, w, chunk);
    var a := AnnounceFromBuffer(q, AnnounceToBuffer(p, myGuid, w), chunk).value;
    assert Schema(a) == Schema(p) by {
      AnnounceRoundTrip(p, q, myGuid, w, chunk);
    }
    PublishDelivers(p, a, myGuid, send, w);
  }

  /** A PUBLISH applied to a copy that agrees on the slot types keeps its
      schema and gives it the value, length and times of every DIRTY slot. */
  lemma PublishDelivers(p: Pub, a: Pub, myGuid: int, send: Float64, w: Widths)
    requires Valid(p) && Valid(a) && SameTypes(p, a, 0, p.elemCount)
    ensures var r := ApplyPublish(a, PublishToBuffer(p, myGuid, send, w).msg);
      && r.Success?
      && Schema(r.value) == Schema(a)
      && forall j :: 0 <= j < p.elemCount && p.data[j].state == Dirty ==>
           r.value.data[j].val == p.data[j].val && r.value.data[j].valLen == p.data[j].valLen
           && r.value.data[j].time.pack == p.data[j].time.pack && r.value.data[j].time.send == send
  {
    var m := PublishToBuffer(p, myGuid, send, w).msg;
    PublishRoundTrip(p, a, myGuid, send, w);
    PublishKeepsSchema(a, m);
    var t := Target(p, a, 0, p.elemCount, send);
    forall j | 0 <= j < p.elemCount && p.data[j].state == Dirty
      ensures t[j].val == p.data[j].val && t[j].valLen == p.data[j].valLen
           && t[j].time.pack == p.data[j].time.pack && t[j].time.send == send
    {
      assert a.data[j].vtype == TypeOf(p.data[j].val);
      assert t[j] == Delivered(a.data[j], p.data[j], send);
    }
  }
}
