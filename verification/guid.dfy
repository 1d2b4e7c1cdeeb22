/**
 * GUID issuance. Each process holds a pool `next .. last` of identifiers.
 * The daemon owns the whole range and hands blocks of it to clients on
 * REGISTER and GUID_BLOCK; a client draws from its block and asks the daemon
 * for a new one when the block runs out.
 */
module Guid {
  /** An SOS_uid pool. */
  datatype Uid = Uid(next: int, last: int)

  datatype Role = ClientRole | DaemonRole

  /** SOS_uid_init: the pool starts at `from` (at least 1) and ends at `to`
      (at most `uidMax`, SOS_DEFAULT_UID_MAX). */
  function UidInit(from: int, to: int, uidMax: int): (u: Uid)
    ensures u.next >= 1 && u.last <= uidMax
    ensures from >= 1 ==> u.next == from
    ensures to <= uidMax ==> u.last == to
    ensures u.next == 1 || u.next == from
    ensures u.last == uidMax || u.last == to
  {
    Uid(if from > 0 then from else 1, if to < uidMax then to else uidMax)
  }

  /** What SOS_uid_next does: hand out `serial` and continue with `pool`, or
      end the process (the daemon has no one to ask for more). */
  datatype Step = Issued(serial: int, pool: Uid) | Terminated

  /** SOS_uid_next. `refill` is the block the daemon answers a client's
      GUID_BLOCK request with; it is used only when the pool runs out. */
  function UidNext(u: Uid, role: Role, refill: Uid): (s: Step)
    ensures s.Terminated? <==> role == DaemonRole && u.next + 1 > u.last
    ensures s.Issued? ==> s.serial == u.next
    ensures s.Issued? && u.next + 1 <= u.last ==> s.pool == Uid(u.next + 1, u.last)
    ensures s.Issued? && u.next + 1 > u.last ==> s.pool == refill
    ensures role == DaemonRole && s.Issued? ==> s.serial < u.last
  {
    var u' := Uid(u.next + 1, u.last);
    if u'.next > u'.last then
      if role == DaemonRole then Terminated else Issued(u.next, refill)
    else Issued(u.next, u')
  }

  /** The daemon never returns the last GUID of its range: it terminates as
      soon as the counter passes it. */
  lemma DaemonNeverIssuesLast(u: Uid, refill: Uid)
    requires u.next == u.last
    ensures UidNext(u, DaemonRole, refill) == Terminated
  {
  }

  /** The daemon's identifiers, drawn one by one, are strictly increasing and
      stay below the end of its range. */
  method DaemonIssue(u: Uid, n: nat) returns (serials: seq<int>, pool: Uid, terminated: bool)
    ensures |serials| <= n && (!terminated ==> |serials| == n)
    ensures forall i, j :: 0 <= i < j < |serials| ==> serials[i] < serials[j]
    ensures forall i :: 0 <= i < |serials| ==> u.next <= serials[i] < u.last
    ensures pool.last == u.last
    ensures forall i :: 0 <= i < |serials| ==> serials[i] < pool.next
    ensures terminated ==> pool.next >= pool.last
  {
    serials := [];
    pool := u;
    terminated := false;
    var k := 0;
    while k < n
      invariant k <= n && |serials| == k && pool.last == u.last
      invariant forall i, j :: 0 <= i < j < |serials| ==> serials[i] < serials[j]
      invariant forall i :: 0 <= i < |serials| ==> u.next <= serials[i] < pool.next
      invariant forall i :: 0 <= i < |serials| ==> serials[i] < u.last
      invariant |serials| > 0 ==> pool.next == serials[|serials| - 1] + 1
      invariant |serials| == 0 ==> pool == u
    {
      var s := UidNext(pool, DaemonRole, pool);
      if s.Terminated? {
        terminated := true;
        return;
      }
      serials := serials + [s.serial];
      pool := s.pool;
      k := k + 1;
    }
  }

  /** SOSD_claim_guid_block: the block `from .. to` (both ends included)
      handed to a client, and the daemon's pool afterwards. */
  datatype Claim = Claim(from: int, to: int, pool: Uid)

  /** The size requested is SOS_DEFAULT_GUID_BLOCK. A full block spans
      `size + 1` identifiers; near the end of the range the block is cut
      at `last`; once the range is gone the block is empty (`from > to`). */
  function ClaimGuidBlock(u: Uid, size: nat): (c: Claim)
    ensures c.from == u.next && c.pool.last == u.last
    ensures c.pool.next == c.to + 1
    ensures c.to <= u.last && c.to <= u.next + size
    ensures u.next + size <= u.last ==> c.to == u.next + size
    ensures u.next + size > u.last ==> c.to == u.last
  {
    if u.next + size > u.last then Claim(u.next, u.last, Uid(u.last + 1, u.last))
    else Claim(u.next, u.next + size, Uid(u.next + size + 1, u.last))
  }

  /** Blocks claimed one after another never overlap: each starts after the
      previous one ends. */
  lemma ConsecutiveClaimsDisjoint(u: Uid, size1: nat, size2: nat)
    ensures var c1 := ClaimGuidBlock(u, size1);
            var c2 := ClaimGuidBlock(c1.pool, size2);
            c1.to < c2.from
  {
  }

  /** A daemon whose range is used up keeps answering with the same empty
      block `last + 1 .. last`. */
  lemma ExhaustedClaimIsStable(u: Uid, size: nat)
    requires u.next == u.last + 1
    ensures ClaimGuidBlock(u, size) == Claim(u.last + 1, u.last, u)
  {
  }

  /** A pool that has not been overdrawn: `next` is at most one past `last`.
      SOSD_init's pool `1 .. SOS_DEFAULT_UID_MAX` is one. */
  predicate Valid(u: Uid) { u.next <= u.last + 1 }

  lemma ClaimKeepsValid(u: Uid, size: nat)
    requires Valid(u)
    ensures Valid(ClaimGuidBlock(u, size).pool)
    ensures u.next <= ClaimGuidBlock(u, size).pool.next
  {
  }

  /** The daemon answering `count` GUID_BLOCK requests in turn: the blocks are
      pairwise disjoint, lie in its range, and are ordered. */
  method ClaimBlocks(u: Uid, size: nat, count: nat) returns (blocks: seq<(int, int)>, pool: Uid)
    requires Valid(u)
    ensures |blocks| == count && pool.last == u.last
    ensures forall i :: 0 <= i < count ==> u.next <= blocks[i].0 && blocks[i].1 <= u.last
    ensures forall i :: 0 <= i < count ==> blocks[i].1 < pool.next
    ensures forall i, j :: 0 <= i < j < count ==> blocks[i].1 < blocks[j].0
  {
    blocks := [];
    pool := u;
    var k := 0;
    while k < count
      invariant k <= count && |blocks| == k && pool.last == u.last
      invariant u.next <= pool.next && Valid(pool)
      invariant forall i :: 0 <= i < k ==> u.next <= blocks[i].0 && blocks[i].1 <= u.last
      invariant forall i :: 0 <= i < k ==> blocks[i].1 < pool.next
      invariant forall i, j :: 0 <= i < j < k ==> blocks[i].1 < blocks[j].0
    {
      var c := ClaimGuidBlock(pool, size);
      blocks := blocks + [(c.from, c.to)];
      pool := c.pool;
      k := k + 1;
    }
  }

  lemma ClaimScenario()
    ensures ClaimGuidBlock(Uid(1, 100), 10) == Claim(1, 11, Uid(12, 100))
    ensures ClaimGuidBlock(Uid(12, 100), 10) == Claim(12, 22, Uid(23, 100))
    ensures ClaimGuidBlock(Uid(95, 100), 10) == Claim(95, 100, Uid(101, 100))
  {
  }

  /** A client drawing `n` GUIDs from `pool`, refilled from the daemon's pool
      `daemon` whenever it runs out. `ranOut` reports that some refill came
      back empty. While every refill is a real block the client's GUIDs are
      strictly increasing and all lie below the daemon's next free GUID, so
      they cannot collide with any block the daemon hands out later. */
  method ClientIssue(pool: Uid, daemon: Uid, size: nat, n: nat)
    returns (serials: seq<int>, pool': Uid, daemon': Uid, ranOut: bool)
    requires pool.next <= pool.last < daemon.next
    ensures |serials| == n && daemon'.last == daemon.last
    ensures !ranOut ==> pool'.next <= pool'.last < daemon'.next
    ensures !ranOut ==> forall i, j :: 0 <= i < j < n ==> serials[i] < serials[j]
    ensures !ranOut ==> forall i :: 0 <= i < n ==> pool.next <= serials[i] < pool'.next
    ensures ranOut ==> daemon'.next == daemon'.last + 1
  {
    serials := [];
    pool' := pool;
    daemon' := daemon;
    ranOut := false;
    var k := 0;
    while k < n
      invariant k <= n && |serials| == k && daemon'.last == daemon.last
      invariant !ranOut ==> pool.next <= pool'.next <= pool'.last < daemon'.next
      invariant !ranOut ==> forall i, j :: 0 <= i < j < k ==> serials[i] < serials[j]
      invariant !ranOut ==> forall i :: 0 <= i < k ==> pool.next <= serials[i] < pool'.next
      invariant ranOut ==> daemon'.next == daemon'.last + 1
    {
      var c := ClaimGuidBlock(daemon', size);
      var s := UidNext(pool', ClientRole, Uid(c.from, c.to));
      serials := serials + [s.serial];
      if pool'.next + 1 > pool'.last {
        // the request went out: the daemon's pool moves on
        daemon' := c.pool;
        if c.from > c.to {
          ranOut := true;
        }
      }
      pool' := s.pool;
      k := k + 1;
    }
  }

  /** What happens when the daemon has run out: the client is handed the
      same GUID on every call. */
  lemma ExhaustedClientRepeats(last: int, size: nat)
    ensures var daemon := Uid(last + 1, last);
            var c := ClaimGuidBlock(daemon, size);
            var s1 := UidNext(Uid(c.from, c.to), ClientRole, Uid(c.from, c.to));
            s1.Issued? && s1.serial == last + 1 && s1.pool == Uid(c.from, c.to)
  {
  }
}
