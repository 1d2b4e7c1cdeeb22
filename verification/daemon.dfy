/**
 * The daemon (sosd): its listen loop, the message handlers, and one batch of
 * the storage injector. The daemon keeps every pub it has heard of in a
 * table keyed by pub GUID, queues the GUIDs of freshly published pubs on
 * the local-sync ring, and hands out GUID blocks from its own pool.
 */
module Daemon {
  import opened Wrappers
  import opened Enums
  import opened Wire
  import opened Pubs
  import opened Serial
  import Guid
  import Ring

  /** The compile-time constants the handlers use. */
  datatype Config = Config(
    elemMaxDefault: nat,  // SOS_DEFAULT_ELEM_MAX
    guidBlock: nat,       // SOS_DEFAULT_GUID_BLOCK
    headerBytes: nat)     // sizeof(SOS_msg_header)

  /** A header has at least one byte, so the listen loop's drop of a failed
      `recv` (fewer than one byte) is covered by its drop of short messages. */
  predicate ValidConfig(c: Config) { c.elemMaxDefault > 0 && c.headerBytes > 0 }

  datatype State = State(pool: Guid.Uid, table: map<int, Pub>, localSync: Ring.Ring, running: bool)

  /** Every pub in the table is filed under its own GUID and is well formed. */
  ghost predicate Keyed(st: State)
  {
    forall g :: g in st.table ==> st.table[g].guid == g && Valid(st.table[g])
  }

  ghost predicate Good(st: State)
  {
    Keyed(st) && Ring.Valid(st.localSync)
  }

  /** What the daemon sends back on the connection. */
  datatype Reply =
    | Block(from: int, to: int)              // two longs: a GUID block
    | Text(text: string, len: nat)           // a C string and the byte count sent
    | EchoBack(body: seq<Field>)             // the message after its header
    | NoReply                                // the message was dropped

  const AckText := "ACK"
  const ShutdownText := "I received your SHUTDOWN!"
  const UnknownText := "SOS daemon did not understand your message!"

  /** "ACK" is sent with its terminator: four bytes. */
  const Ack := Text(AckText, 4)

  function DigitChar(d: nat): (c: char)
    requires d < 10
    ensures '0' <= c <= '9' && c as int - '0' as int == d
  {
    ('0' as int + d) as char
  }

  /** The decimal digits of `n`, most significant first, with no leading zero. */
  function NatDigits(n: nat): (s: string)
    ensures |s| > 0
    ensures forall i :: 0 <= i < |s| ==> '0' <= s[i] <= '9'
    ensures s[0] == '0' ==> n == 0 && |s| == 1
    decreases n
  {
    if n < 10 then [DigitChar(n)] else NatDigits(n / 10) + [DigitChar(n % 10)]
  }

  /** sprintf("%ld"): the table key and the title of a pub the daemon creates. */
  function DecimalString(g: int): (s: string)
    ensures |s| > 0
    ensures g < 0 <==> s[0] == '-'
  {
    if g < 0 then "-" + NatDigits(-g) else NatDigits(g)
  }

  /** The number a string of decimal digits denotes (an independent reading,
      least significant digit last). */
  function DigitsValue(s: string): int
  {
    if s == [] then 0 else 10 * DigitsValue(s[..|s| - 1]) + (s[|s| - 1] as int - '0' as int)
  }

  /** The number a `%ld` rendering denotes. */
  function DecimalValue(s: string): int
  {
    if |s| > 0 && s[0] == '-' then -DigitsValue(s[1..]) else DigitsValue(s)
  }

  lemma {:induction false} NatDigitsValue(n: nat)
    ensures DigitsValue(NatDigits(n)) == n
    decreases n
  {
    var s := NatDigits(n);
    if n < 10 {
      assert s[..0] == [];
    } else {
      NatDigitsValue(n / 10);
      assert s[..|s| - 1] == NatDigits(n / 10);
    }
  }

  /** Reading a pub's `%ld` key back gives its GUID, so distinct GUIDs get
      distinct table keys and titles. */
  lemma DecimalStringRoundTrip(g: int)
    ensures DecimalValue(DecimalString(g)) == g
  {
    if g < 0 {
      NatDigitsValue(-g);
      assert DecimalString(g)[1..] == NatDigits(-g);
    } else {
      NatDigitsValue(g);
    }
  }

  lemma DecimalStringInjective(g1: int, g2: int)
    ensures DecimalString(g1) == DecimalString(g2) <==> g1 == g2
  {
    DecimalStringRoundTrip(g1);
    DecimalStringRoundTrip(g2);
  }

  /** The pub filed under `g`, or a new one created as SOS_new_pub does on the
      daemon and stamped with `g`. */
  function Lookup(st: State, g: int, c: Config): (p: Pub)
    requires Keyed(st)
    ensures Valid(p) && p.guid == g
    ensures g in st.table ==> p == st.table[g]
    ensures g !in st.table ==>
      p.elemCount == 0 && p.ElemMax() == c.elemMaxDefault && p.info.title == DecimalString(g)
  {
    if g in st.table then st.table[g]
    else NewPub(DecimalString(g), c.elemMaxDefault, DaemonCreator).(guid := g)
  }

  datatype Outcome = Outcome(st: State, reply: Reply)

  /** SOSD_handle_echo. */
  function HandleEcho(st: State, m: Message): (o: Outcome)
    ensures o.st == st && o.reply == EchoBack(m.body)
  {
    Outcome(st, EchoBack(m.body))
  }

  /** SOSD_handle_register: a client with no GUID yet (msg_from 0) gets a
      block; one that already has a GUID is only acknowledged. */
  function HandleRegister(st: State, m: Message, c: Config): (o: Outcome)
    ensures m.header.msgFrom == 0 ==>
      var b := Guid.ClaimGuidBlock(st.pool, c.guidBlock);
      o.reply == Block(b.from, b.to) && o.st == st.(pool := b.pool)
    ensures m.header.msgFrom != 0 ==> o.reply == Ack && o.st == st
  {
    if m.header.msgFrom == 0 then
      var b := Guid.ClaimGuidBlock(st.pool, c.guidBlock);
      Outcome(st.(pool := b.pool), Block(b.from, b.to))
    else Outcome(st, Ack)
  }

  /** SOSD_handle_guid_block. */
  function HandleGuidBlock(st: State, c: Config): (o: Outcome)
    ensures var b := Guid.ClaimGuidBlock(st.pool, c.guidBlock);
      o.reply == Block(b.from, b.to) && o.st == st.(pool := b.pool)
    ensures o.reply.Block? && o.st.table == st.table && o.st.running == st.running
    ensures o.reply.from == st.pool.next && o.st.pool.next == o.reply.to + 1
  {
    var b := Guid.ClaimGuidBlock(st.pool, c.guidBlock);
    Outcome(st.(pool := b.pool), Block(b.from, b.to))
  }

  /** SOSD_handle_announce: file the pub (creating it if need be), apply the
      ANNOUNCE and mark it as needing to be written to the database. A
      message that does not decode leaves the pub's contents as they were. */
  function HandleAnnounce(st: State, m: Message, c: Config): (o: Outcome)
    requires Keyed(st) && ValidConfig(c)
    ensures Keyed(o.st) && o.reply == Ack
    ensures o.st.table.Keys == st.table.Keys + {m.header.pubGuid}
    ensures forall g :: g in st.table && g != m.header.pubGuid ==> o.st.table[g] == st.table[g]
    ensures o.st.table[m.header.pubGuid].announced == AnnDirty
    ensures AnnounceFromBuffer(Lookup(st, m.header.pubGuid, c), m, c.elemMaxDefault).Success? ==>
      o.st.table[m.header.pubGuid] ==
        AnnounceFromBuffer(Lookup(st, m.header.pubGuid, c), m, c.elemMaxDefault).value.(announced := AnnDirty)
    ensures o.st.pool == st.pool && o.st.localSync == st.localSync && o.st.running == st.running
  {
    var g := m.header.pubGuid;
    var p := Lookup(st, g, c);
    var p' := match AnnounceFromBuffer(p, m, c.elemMaxDefault)
              case Success(q) => q
              case Failure(_) => p;
    FileKeyed(st, p'.(announced := AnnDirty));
    Outcome(st.(table := st.table[g := p'.(announced := AnnDirty)]), Ack)
  }

  /** Filing a well-formed pub under its own GUID keeps the table keyed. */
  lemma FileKeyed(st: State, p: Pub)
    requires Keyed(st) && Valid(p)
    ensures Keyed(st.(table := st.table[p.guid := p]))
  {
  }

  /** SOSD_handle_publish: file the pub (creating it if need be), apply the
      PUBLISH and queue its GUID for the storage thread. The queue's answer is
      ignored, so a GUID is dropped when the ring is full. */
  function HandlePublish(st: State, m: Message, c: Config): (o: Outcome)
    requires Good(st) && ValidConfig(c)
    ensures Good(o.st) && o.reply == Ack
    ensures o.st.table.Keys == st.table.Keys + {m.header.pubGuid}
    ensures forall g :: g in st.table && g != m.header.pubGuid ==> o.st.table[g] == st.table[g]
    ensures ApplyPublish(Lookup(st, m.header.pubGuid, c), m).Success? ==>
      o.st.table[m.header.pubGuid] == ApplyPublish(Lookup(st, m.header.pubGuid, c), m).value
    ensures o.st.localSync == Ring.RingPut(st.localSync, m.header.pubGuid).ring
    ensures st.localSync.count < st.localSync.Max() ==>
      Ring.Contents(o.st.localSync) == Ring.Contents(st.localSync) + [m.header.pubGuid]
    ensures o.st.pool == st.pool && o.st.running == st.running
  {
    var g := m.header.pubGuid;
    var p := Lookup(st, g, c);
    var p' := match ApplyPublish(p, m)
              case Success(q) => q
              case Failure(_) => p;
    FileKeyed(st, p');
    Outcome(st.(table := st.table[g := p'], localSync := Ring.RingPut(st.localSync, p'.guid).ring), Ack)
  }

  /** SOSD_handle_shutdown: acknowledge, then stop the daemon's loops. */
  function HandleShutdown(st: State): (o: Outcome)
    ensures !o.st.running && o.st.(running := st.running) == st
    ensures o.reply == Text(ShutdownText, |ShutdownText|)
  {
    Outcome(st.(running := false), Text(ShutdownText, |ShutdownText|))
  }

  /** SOSD_handle_unknown. */
  function HandleUnknown(st: State): (o: Outcome)
    ensures o.st == st && o.reply == Text(UnknownText, |UnknownText|)
  {
    Outcome(st, Text(UnknownText, |UnknownText|))
  }

  /** The message types the listen loop has a handler for. */
  predicate Handled(t: MsgType)
  {
    t in {Register, GuidBlock, Announce, Publish, Echo, Shutdown}
  }

  /** The handler switch of SOSD_listen_loop. */
  function Dispatch(st: State, m: Message, c: Config): (o: Outcome)
    requires Good(st) && ValidConfig(c)
    ensures Good(o.st)
    ensures var t := MsgTypeFromOrdinal(m.header.msgType);
      && (t == Some(Register) ==> o == HandleRegister(st, m, c))
      && (t == Some(GuidBlock) ==> o == HandleGuidBlock(st, c))
      && (t == Some(Announce) ==> o == HandleAnnounce(st, m, c))
      && (t == Some(Publish) ==> o == HandlePublish(st, m, c))
      && (t == Some(Echo) ==> o == HandleEcho(st, m))
      && (t == Some(Shutdown) ==> o == HandleShutdown(st))
      && (t.None? || !Handled(t.value) ==> o == HandleUnknown(st))
      && (t == Some(Shutdown) ==> !o.st.running)
      && (t != Some(Shutdown) ==> o.st.running == st.running)
    ensures o.st.table.Keys == st.table.Keys || o.st.table.Keys == st.table.Keys + {m.header.pubGuid}
  {
    match MsgTypeFromOrdinal(m.header.msgType)
    case Some(Register) => HandleRegister(st, m, c)
    case Some(GuidBlock) => HandleGuidBlock(st, c)
    case Some(Announce) =>
      var o := HandleAnnounce(st, m, c);
      assert Ring.Valid(o.st.localSync);
      o
    case Some(Publish) => HandlePublish(st, m, c)
    case Some(Echo) => HandleEcho(st, m)
    case Some(Shutdown) => HandleShutdown(st)
    case _ => HandleUnknown(st)
  }

  /** A message as the loop receives it: the header and body it carries and
      the number of bytes the first read returned. */
  datatype Incoming = Incoming(msg: Message, byteCount: int)

  /** One pass of SOSD_listen_loop: a message shorter than a header is
      dropped unanswered; anything else is dispatched on its type. */
  function ListenStep(st: State, inc: Incoming, c: Config): (o: Outcome)
    requires Good(st) && ValidConfig(c)
    ensures Good(o.st)
    ensures inc.byteCount < c.headerBytes ==> o == Outcome(st, NoReply)
    ensures inc.byteCount >= c.headerBytes ==> o == Dispatch(st, inc.msg, c)
  {
    if inc.byteCount < c.headerBytes then Outcome(st, NoReply)
    else Dispatch(st, inc.msg, c)
  }

  /** The loop itself: take messages while the daemon is running. Returns the
      final state, the replies, and how many messages were taken. */
  function Listen(st: State, inbox: seq<Incoming>, c: Config): (r: (State, seq<Reply>, nat))
    requires Good(st) && ValidConfig(c)
    ensures Good(r.0) && r.2 <= |inbox| && |r.1| == r.2
    ensures st.running && inbox != [] ==> r.2 > 0 && r.1[0] == ListenStep(st, inbox[0], c).reply
    ensures !st.running ==> r == (st, [], 0)
    ensures r.2 < |inbox| ==> !r.0.running
    ensures st.table.Keys <= r.0.table.Keys
    decreases |inbox|
  {
    if !st.running || inbox == [] then (st, [], 0)
    else
      var o := ListenStep(st, inbox[0], c);
      var rest := Listen(o.st, inbox[1..], c);
      (rest.0, [o.reply] + rest.1, rest.2 + 1)
  }

  /** Every message of `msgs` handled in turn, whether or not the daemon is
      still running: the state the loop is in after taking them. */
  function Run(st: State, msgs: seq<Incoming>, c: Config): (s: State)
    requires Good(st) && ValidConfig(c)
    ensures Good(s)
    decreases |msgs|
  {
    if msgs == [] then st else Run(ListenStep(st, msgs[0], c).st, msgs[1..], c)
  }

  /** The loop answers its `i`-th message exactly as one ListenStep would in
      the state the earlier messages left, and ends in the state they all
      leave. */
  lemma {:induction false} ListenAnswersInOrder(st: State, inbox: seq<Incoming>, c: Config)
    requires Good(st) && ValidConfig(c)
    ensures var r := Listen(st, inbox, c);
      && r.0 == Run(st, inbox[..r.2], c)
      && forall i :: 0 <= i < r.2 ==> r.1[i] == ListenStep(Run(st, inbox[..i], c), inbox[i], c).reply
    decreases |inbox|
  {
    var r := Listen(st, inbox, c);
    if !st.running || inbox == [] {
      assert inbox[..0] == [];
    } else {
      var o := ListenStep(st, inbox[0], c);
      var rest := Listen(o.st, inbox[1..], c);
      ListenAnswersInOrder(o.st, inbox[1..], c);
      RunFirst(st, inbox, r.2, c);
      forall i | 0 <= i < r.2
        ensures r.1[i] == ListenStep(Run(st, inbox[..i], c), inbox[i], c).reply
      {
        if i == 0 {
          assert inbox[..0] == [];
        } else {
          RunFirst(st, inbox, i, c);
          assert r.1[i] == rest.1[i - 1];
          assert inbox[1..][i - 1] == inbox[i];
        }
      }
    }
  }

  /** Running a non-empty prefix is one step followed by the rest of it. */
  lemma RunFirst(st: State, inbox: seq<Incoming>, k: nat, c: Config)
    requires Good(st) && ValidConfig(c) && 0 < k <= |inbox|
    ensures Run(st, inbox[..k], c) == Run(ListenStep(st, inbox[0], c).st, inbox[1..][..k - 1], c)
  {
    assert inbox[..k][0] == inbox[0];
    assert inbox[..k][1..] == inbox[1..][..k - 1];
  }

  predicate IsShutdown(inc: Incoming, c: Config)
  {
    inc.byteCount >= c.headerBytes && MsgTypeFromOrdinal(inc.msg.header.msgType) == Some(Shutdown)
  }

  /** Nothing is processed after a SHUTDOWN: a running daemon takes exactly
      the messages up to and including the first one. */
  lemma {:induction false} ListenStopsAtShutdown(st: State, inbox: seq<Incoming>, k: nat, c: Config)
    requires Good(st) && ValidConfig(c) && st.running
    requires k < |inbox| && IsShutdown(inbox[k], c)
    requires forall j :: 0 <= j < k ==> !IsShutdown(inbox[j], c)
    ensures var r := Listen(st, inbox, c); r.2 == k + 1 && !r.0.running
    decreases k
  {
    var o := ListenStep(st, inbox[0], c);
    if k == 0 {
      assert !o.st.running;
      assert Listen(o.st, inbox[1..], c).2 == 0;
    } else {
      assert o.st.running;
      ListenStopsAtShutdown(o.st, inbox[1..], k - 1, c);
    }
  }

  // ---------------------------------------------------------------------
  // The storage injector

  /** What one batch asks of the database and the cloud queue. */
  datatype Event = Begin | InsertPub(g: int) | InsertData(g: int) | CloudPut(g: int) | Commit

  /** The body of the injector's loop for the daemon's own database: a GUID
      with no pub is skipped; a pub not yet written locally is inserted first
      and flagged; then its values are inserted and its GUID is queued for the
      cloud. */
  function InjectEach(table: map<int, Pub>, list: seq<int>): (r: (seq<Event>, map<int, Pub>))
    ensures r.1.Keys == table.Keys
    ensures forall g :: g in table ==>
      r.1[g] == (if g in list then table[g].(announced := AnnLocal) else table[g])
    ensures Begin !in r.0 && Commit !in r.0
    decreases |list|
  {
    if list == [] then ([], table)
    else
      var g := list[0];
      if g !in table then InjectEach(table, list[1..])
      else
        var p := table[g];
        var head := (if p.announced != AnnLocal then [InsertPub(g)] else []) + [InsertData(g), CloudPut(g)];
        var rest := InjectEach(table[g := p.(announced := AnnLocal)], list[1..]);
        (head + rest.0, rest.1)
  }

  /** One batch of SOSD_THREAD_pub_ring_storage_injector with the daemon as
      target: everything happens inside one transaction. */
  function InjectBatch(table: map<int, Pub>, list: seq<int>): (r: (seq<Event>, map<int, Pub>))
    ensures |r.0| >= 2 && r.0[0] == Begin && r.0[|r.0| - 1] == Commit
    ensures forall i :: 0 < i < |r.0| - 1 ==> r.0[i] != Begin && r.0[i] != Commit
    ensures r.1.Keys == table.Keys
    ensures forall g :: g in list && g in table ==> r.1[g].announced == AnnLocal
    ensures r.0[1..|r.0| - 1] == InjectEach(table, list).0 && r.1 == InjectEach(table, list).1
  {
    var body := InjectEach(table, list);
    assert forall i :: 0 <= i < |body.0| ==> body.0[i] != Begin && body.0[i] != Commit;
    var t := [Begin] + body.0 + [Commit];
    assert t[1..|t| - 1] == body.0;
    (t, body.1)
  }

  /** The GUIDs whose values a list of GUIDs gets written: those with a pub,
      in list order, repeats included. */
  function Found(table: map<int, Pub>, list: seq<int>): seq<int>
  {
    if list == [] then []
    else (if list[0] in table then [list[0]] else []) + Found(table, list[1..])
  }

  /** The InsertData events of a trace, in order. */
  function DataInserts(trace: seq<Event>): seq<int>
  {
    if trace == [] then []
    else (if trace[0].InsertData? then [trace[0].g] else []) + DataInserts(trace[1..])
  }

  function PubInserts(trace: seq<Event>): seq<int>
  {
    if trace == [] then []
    else (if trace[0].InsertPub? then [trace[0].g] else []) + PubInserts(trace[1..])
  }

  lemma InsertsAppend(a: seq<Event>, b: seq<Event>)
    ensures DataInserts(a + b) == DataInserts(a) + DataInserts(b)
    ensures PubInserts(a + b) == PubInserts(a) + PubInserts(b)
  {
    DataInsertsAppend(a, b);
    PubInsertsAppend(a, b);
  }

  lemma {:induction false} DataInsertsAppend(a: seq<Event>, b: seq<Event>)
    ensures DataInserts(a + b) == DataInserts(a) + DataInserts(b)
  {
    if a == [] {
      assert a + b == b;
    } else {
      assert (a + b)[0] == a[0];
      assert (a + b)[1..] == a[1..] + b;
      DataInsertsAppend(a[1..], b);
      var h := if a[0].InsertData? then [a[0].g] else [];
      assert DataInserts(a + b) == h + DataInserts(a[1..] + b);
      assert DataInserts(a) == h + DataInserts(a[1..]);
    }
  }

  lemma {:induction false} PubInsertsAppend(a: seq<Event>, b: seq<Event>)
    ensures PubInserts(a + b) == PubInserts(a) + PubInserts(b)
  {
    if a == [] {
      assert a + b == b;
    } else {
      assert (a + b)[0] == a[0];
      assert (a + b)[1..] == a[1..] + b;
      PubInsertsAppend(a[1..], b);
      var h := if a[0].InsertPub? then [a[0].g] else [];
      assert PubInserts(a + b) == h + PubInserts(a[1..] + b);
      assert PubInserts(a) == h + PubInserts(a[1..]);
    }
  }

  /** Every listed GUID that has a pub gets its values written, in list order. */
  lemma {:induction false} InjectWritesFound(table: map<int, Pub>, list: seq<int>)
    ensures DataInserts(InjectEach(table, list).0) == Found(table, list)
    decreases |list|
  {
    if list != [] {
      var g := list[0];
      if g !in table {
        InjectWritesFound(table, list[1..]);
      } else {
        var p := table[g];
        var t' := table[g := p.(announced := AnnLocal)];
        var head := (if p.announced != AnnLocal then [InsertPub(g)] else []) + [InsertData(g), CloudPut(g)];
        InjectWritesFound(t', list[1..]);
        FoundSameKeys(table, t', list[1..]);
        InsertsAppend(head, InjectEach(t', list[1..]).0);
        assert DataInserts(head) == [g] by {
          var pre: seq<Event> := if p.announced != AnnLocal then [InsertPub(g)] else [];
          InsertsAppend(pre, [InsertData(g), CloudPut(g)]);
          assert DataInserts(pre) == [];
          assert DataInserts([CloudPut(g)]) == [];
          assert DataInserts([InsertData(g), CloudPut(g)]) == [g] + DataInserts([CloudPut(g)]);
        }
      }
    }
  }

  /** The CloudPut events of a trace, in order. */
  function CloudPuts(trace: seq<Event>): seq<int>
  {
    if trace == [] then []
    else (if trace[0].CloudPut? then [trace[0].g] else []) + CloudPuts(trace[1..])
  }

  lemma {:induction false} CloudPutsAppend(a: seq<Event>, b: seq<Event>)
    ensures CloudPuts(a + b) == CloudPuts(a) + CloudPuts(b)
  {
    if a == [] {
      assert a + b == b;
    } else {
      assert (a + b)[0] == a[0];
      assert (a + b)[1..] == a[1..] + b;
      CloudPutsAppend(a[1..], b);
      var h := if a[0].CloudPut? then [a[0].g] else [];
      assert CloudPuts(a + b) == h + CloudPuts(a[1..] + b);
      assert CloudPuts(a) == h + CloudPuts(a[1..]);
    }
  }

  /** Every listed GUID that has a pub is queued for the cloud, in list order. */
  lemma {:induction false} InjectQueuesFound(table: map<int, Pub>, list: seq<int>)
    ensures CloudPuts(InjectEach(table, list).0) == Found(table, list)
    decreases |list|
  {
    if list != [] {
      var g := list[0];
      if g !in table {
        InjectQueuesFound(table, list[1..]);
      } else {
        var p := table[g];
        var t' := table[g := p.(announced := AnnLocal)];
        var pre: seq<Event> := if p.announced != AnnLocal then [InsertPub(g)] else [];
        var tail := InjectEach(t', list[1..]).0;
        assert InjectEach(table, list).0 == pre + [InsertData(g), CloudPut(g)] + tail;
        InjectQueuesFound(t', list[1..]);
        FoundSameKeys(table, t', list[1..]);
        CloudPutsAppend(pre + [InsertData(g), CloudPut(g)], tail);
        CloudPutsAppend(pre, [InsertData(g), CloudPut(g)]);
        assert CloudPuts(pre) == [];
        assert CloudPuts([CloudPut(g)]) == [g];
        assert CloudPuts([InsertData(g), CloudPut(g)]) == [] + CloudPuts([CloudPut(g)]);
      }
    }
  }

  /** The per-pub order of the injector at position `i`: a schema insert is
      followed at once by the same pub's value insert, and a value insert at
      once by the same pub's cloud queueing. */
  predicate OrderAt(t: seq<Event>, i: nat)
    requires i < |t|
  {
    && (t[i].InsertPub? ==> i + 1 < |t| && t[i + 1] == InsertData(t[i].g))
    && (t[i].InsertData? ==> i + 1 < |t| && t[i + 1] == CloudPut(t[i].g))
    && (t[i].CloudPut? ==> 0 < i && t[i - 1] == InsertData(t[i].g))
  }

  ghost predicate PerPubOrder(t: seq<Event>)
  {
    forall i :: 0 <= i < |t| ==> OrderAt(t, i)
  }

  lemma PerPubOrderAppend(a: seq<Event>, b: seq<Event>)
    requires PerPubOrder(a) && PerPubOrder(b)
    ensures PerPubOrder(a + b)
  {
    var t := a + b;
    forall i | 0 <= i < |t|
      ensures OrderAt(t, i)
    {
      if i < |a| {
        assert OrderAt(a, i);
        assert t[i] == a[i];
        if i + 1 < |a| { assert t[i + 1] == a[i + 1]; }
        if 0 < i { assert t[i - 1] == a[i - 1]; }
      } else {
        var k := i - |a|;
        assert OrderAt(b, k);
        assert t[i] == b[k];
        if k + 1 < |b| { assert t[i + 1] == b[k + 1]; }
        if 0 < k { assert t[i - 1] == b[k - 1]; }
      }
    }
  }

  /** Each pub found in the table is handled as one block: its schema (if not
      yet local), then its values, then its cloud queueing. */
  lemma {:induction false} InjectKeepsPerPubOrder(table: map<int, Pub>, list: seq<int>)
    ensures PerPubOrder(InjectEach(table, list).0)
    decreases |list|
  {
    if list != [] {
      var g := list[0];
      if g !in table {
        InjectKeepsPerPubOrder(table, list[1..]);
      } else {
        var p := table[g];
        var t' := table[g := p.(announced := AnnLocal)];
        var head := (if p.announced != AnnLocal then [InsertPub(g)] else []) + [InsertData(g), CloudPut(g)];
        InjectKeepsPerPubOrder(t', list[1..]);
        assert PerPubOrder(head) by {
          if p.announced != AnnLocal {
            assert head == [InsertPub(g), InsertData(g), CloudPut(g)];
          } else {
            assert head == [InsertData(g), CloudPut(g)];
          }
        }
        PerPubOrderAppend(head, InjectEach(t', list[1..]).0);
      }
    }
  }

  lemma {:induction false} FoundSameKeys(t1: map<int, Pub>, t2: map<int, Pub>, list: seq<int>)
    requires t1.Keys == t2.Keys
    ensures Found(t1, list) == Found(t2, list)
    decreases |list|
  {
    if list != [] {
      FoundSameKeys(t1, t2, list[1..]);
    }
  }

  /** `ins` names each pub at most once, and only pubs of `table` named in
      `list` that had not been written locally. */
  ghost predicate InsertedOnce(table: map<int, Pub>, list: seq<int>, ins: seq<int>)
  {
    && (forall i, j :: 0 <= i < j < |ins| ==> ins[i] != ins[j])
    && (forall i :: 0 <= i < |ins| ==> ins[i] in table && ins[i] in list && table[ins[i]].announced != AnnLocal)
  }

  /** The schema inserts of a batch that starts with a pub found in the table:
      its own insert, if it was not yet local, then those of the rest. */
  lemma PubInsertsFirst(table: map<int, Pub>, list: seq<int>)
    requires list != [] && list[0] in table
    ensures var g := list[0];
      var t' := table[g := table[g].(announced := AnnLocal)];
      PubInserts(InjectEach(table, list).0) ==
        (if table[g].announced != AnnLocal then [g] else []) + PubInserts(InjectEach(t', list[1..]).0)
  {
    var g := list[0];
    var p := table[g];
    var t' := table[g := p.(announced := AnnLocal)];
    var pre: seq<Event> := if p.announced != AnnLocal then [InsertPub(g)] else [];
    var tail := InjectEach(t', list[1..]).0;
    assert InjectEach(table, list).0 == pre + [InsertData(g), CloudPut(g)] + tail;
    PubInsertsAppend(pre + [InsertData(g), CloudPut(g)], tail);
    PubInsertsAppend(pre, [InsertData(g), CloudPut(g)]);
    assert PubInserts([CloudPut(g)]) == [];
    assert PubInserts([InsertData(g), CloudPut(g)]) == [];
  }

  /** InsertedOnce survives putting the first pub of the list in front. */
  lemma InsertedOnceStep(table: map<int, Pub>, list: seq<int>, rest: seq<int>)
    requires list != [] && list[0] in table
    requires InsertedOnce(table[list[0] := table[list[0]].(announced := AnnLocal)], list[1..], rest)
    ensures InsertedOnce(table, list, (if table[list[0]].announced != AnnLocal then [list[0]] else []) + rest)
  {
    var g := list[0];
    var t' := table[g := table[g].(announced := AnnLocal)];
    forall i | 0 <= i < |rest|
      ensures rest[i] != g && rest[i] in list && rest[i] in table && table[rest[i]].announced != AnnLocal
    {
      assert rest[i] in t' && t'[rest[i]].announced != AnnLocal;
      assert rest[i] in list[1..];
    }
  }

  /** A pub is written to the database at most once per batch, and only when
      it had not been written locally before. */
  lemma {:induction false} InjectInsertsPubOnce(table: map<int, Pub>, list: seq<int>)
    ensures InsertedOnce(table, list, PubInserts(InjectEach(table, list).0))
    decreases |list|
  {
    if list != [] {
      var g := list[0];
      if g !in table {
        assert InjectEach(table, list) == InjectEach(table, list[1..]);
        InjectInsertsPubOnce(table, list[1..]);
        assert forall x :: x in list[1..] ==> x in list;
      } else {
        var t' := table[g := table[g].(announced := AnnLocal)];
        InjectInsertsPubOnce(t', list[1..]);
        PubInsertsFirst(table, list);
        InsertedOnceStep(table, list, PubInserts(InjectEach(t', list[1..]).0));
      }
    }
  }
}
