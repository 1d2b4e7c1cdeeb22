/**
 * SOS_ring_queue: the bounded FIFO of pub GUIDs the daemon's listener hands
 * to its storage thread. `heap` is the fixed array of `elem_max` slots;
 * `count` items start at `read`, wrapping around the end of the array.
 */
module Ring {
  import opened Wrappers

  datatype Ring = Ring(heap: seq<int>, read: nat, write: nat, count: nat)
  {
    function Max(): nat { |heap| }
  }

  ghost predicate Valid(r: Ring)
  {
    && |r.heap| > 0
    && r.read < |r.heap| && r.write < |r.heap| && r.count <= |r.heap|
    && r.write == Wrap(r.read + r.count, |r.heap|)
  }

  /** Index arithmetic on the ring: `x % n` for a position less than twice
      around, which is all the cursors ever need (see WrapIsMod). */
  function Wrap(x: nat, n: nat): (y: nat)
    requires 0 < n && x < 2 * n
    ensures y < n
    ensures x < n ==> y == x
    ensures x >= n ==> y + n == x
  {
    if x < n then x else x - n
  }

  lemma WrapIsMod(x: nat, n: nat)
    requires 0 < n && x < 2 * n
    ensures Wrap(x, n) == x % n
  {
  }

  /** The slot `i` places after `read`, following the wrap. */
  function At(r: Ring, i: int): int
  {
    var n := |r.heap|;
    if 0 < n && 0 <= i && r.read + i < 2 * n then r.heap[Wrap(r.read + i, n)] else 0
  }

  /** The queued items, oldest first. */
  function Contents(r: Ring): (s: seq<int>)
    requires Valid(r)
    ensures |s| == r.count
    ensures forall i :: 0 <= i < r.count ==> s[i] == r.heap[Wrap(r.read + i, |r.heap|)]
  {
    seq(r.count, i => At(r, i))
  }

  /** SOS_ring_init: an empty ring of `size` zeroed slots (SOS_DEFAULT_RING_SIZE). */
  function RingInit(size: nat): (r: Ring)
    requires size > 0
    ensures Valid(r) && Contents(r) == [] && r.Max() == size
  {
    Ring(seq(size, _ => 0), 0, 0, 0)
  }

  /** The result of SOS_ring_put: 0 on success, -1 when the ring is full. */
  datatype PutOut = PutOut(ring: Ring, status: int)

  /** SOS_ring_put. */
  function RingPut(r: Ring, item: int): (o: PutOut)
    requires Valid(r)
    ensures Valid(o.ring) && o.ring.Max() == r.Max()
    ensures r.count < r.Max() ==> o.status == 0 && Contents(o.ring) == Contents(r) + [item]
    ensures r.count >= r.Max() ==> o.status == -1 && o.ring == r
  {
    if r.count >= |r.heap| then PutOut(r, -1)
    else
      var n := |r.heap|;
      var r' := Ring(r.heap[r.write := item], r.read, Wrap(r.write + 1, n), r.count + 1);
      assert r.write == Wrap(r.read + r.count, n);
      assert Contents(r') == Contents(r) + [item] by {
        forall i | 0 <= i < r.count
          ensures Contents(r')[i] == Contents(r)[i]
        {
        }
      }
      PutOut(r', 0)
  }

  /** The result of SOS_ring_get: the oldest item, or -1 when the ring is empty. */
  datatype GetOut = GetOut(ring: Ring, item: int)

  /** SOS_ring_get. */
  function RingGet(r: Ring): (o: GetOut)
    requires Valid(r)
    ensures Valid(o.ring) && o.ring.Max() == r.Max()
    ensures r.count > 0 ==> o.item == Contents(r)[0] && Contents(o.ring) == Contents(r)[1..]
    ensures r.count == 0 ==> o.item == -1 && o.ring == r
  {
    if r.count == 0 then GetOut(r, -1)
    else
      var n := |r.heap|;
      var r' := Ring(r.heap, Wrap(r.read + 1, n), r.write, r.count - 1);
      assert Contents(r') == Contents(r)[1..] by {
        forall i | 0 <= i < r'.count
          ensures Contents(r')[i] == Contents(r)[i + 1]
        {
        }
      }
      GetOut(r', r.heap[r.read])
  }

  /** First in, first out: items come back out in the order they went in. */
  lemma {:induction false} FifoOrder(r: Ring, a: int, b: int)
    requires Valid(r) && r.count == 0 && r.Max() >= 2
    ensures var r1 := RingPut(RingPut(r, a).ring, b).ring;
            var g1 := RingGet(r1);
            var g2 := RingGet(g1.ring);
            g1.item == a && g2.item == b && Contents(g2.ring) == []
  {
    var p1 := RingPut(r, a).ring;
    assert Contents(p1) == [a];
    var r1 := RingPut(p1, b).ring;
    assert Contents(r1) == [a, b];
    var g1 := RingGet(r1);
    assert Contents(g1.ring) == [b];
  }

  /** SOS_ring_get_all as written: it copies `count` slots starting at `read`
      in one block, without wrapping, and empties the ring. The copy runs off
      the end of the array when the queued items wrap around. */
  function GetAllAsWritten(r: Ring): (o: Result<(seq<int>, Ring)>)
    requires Valid(r)
    ensures o.Failure? <==> r.read + r.count > r.Max()
    ensures o.Success? ==> o.value.0 == Contents(r)
    ensures o.Success? ==> Valid(o.value.1) && Contents(o.value.1) == []
  {
    if r.read + r.count > |r.heap| then Failure(Truncated)
    else
      assert forall i :: 0 <= i < r.count ==> Contents(r)[i] == r.heap[r.read + i];
      Success((r.heap[r.read .. r.read + r.count], Ring(r.heap, r.write, r.write, 0)))
  }

  /** A ring of two slots after put 7, put 8, get, put 9 holds [8, 9] starting
      at slot 1: the one-block copy would read one slot past the array. */
  lemma GetAllOverrun()
    ensures var r0 := RingInit(2);
            var r1 := RingPut(r0, 7).ring;
            var r2 := RingPut(r1, 8).ring;
            var r3 := RingGet(r2).ring;
            var r4 := RingPut(r3, 9).ring;
            Contents(r4) == [8, 9] && r4.read == 1 && GetAllAsWritten(r4).Failure?
  {
    var r0 := RingInit(2);
    var r1 := RingPut(r0, 7).ring;
    assert Contents(r1) == [7];
    var r2 := RingPut(r1, 8).ring;
    assert Contents(r2) == [7, 8];
    var r3 := RingGet(r2).ring;
    assert Contents(r3) == [8];
    var r4 := RingPut(r3, 9).ring;
    assert Contents(r4) == [8, 9];
  }

  /** SOS_ring_get_all as intended: every queued item, oldest first, following
      the wrap; the ring is left empty with `read` caught up to `write`. */
  method GetAll(r: Ring) returns (items: seq<int>, r': Ring)
    requires Valid(r)
    ensures items == Contents(r)
    ensures Valid(r') && Contents(r') == [] && r'.heap == r.heap
    ensures r'.read == r.write && r'.write == r.write
  {
    items := [];
    var pos := r.read;
    var k := 0;
    while k < r.count
      invariant k <= r.count && pos < |r.heap|
      invariant pos == Wrap(r.read + k, |r.heap|)
      invariant items == Contents(r)[..k]
    {
      items := items + [r.heap[pos]];
      pos := if pos + 1 == |r.heap| then 0 else pos + 1;
      k := k + 1;
    }
    r' := Ring(r.heap, r.write, r.write, 0);
  }
}
