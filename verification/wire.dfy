/**
 * Messages at the level of typed fields.
 *
 * The byte codec (SOS_buffer_pack / SOS_buffer_unpack) is declared in
 * pack_buffer.h but its bodies are not part of this model, so a message is
 * a fixed four-field header followed by a list of typed fields, one per
 * conversion character of the format strings the source uses:
 * 'l' (32-bit integer), 'q' (64-bit integer), 'g' (double), 's' (string).
 */
module Wire {

  /** A double or SOS_TIME stamp, kept as an opaque 64-bit pattern: the model
      copies and compares these values but never computes with them. */
  datatype Float64 = Float64(bits: bv64)

  /** 0.0, the value memset leaves behind. */
  const ZeroTime := Float64(0)

  datatype Field = I32(i: int) | I64(q: int) | Dbl(g: Float64) | Str(s: string)

  /** The message header (msg_size, msg_type, msg_from, pub_guid). */
  datatype Header = Header(msgSize: int, msgType: int, msgFrom: int, pubGuid: int)

  datatype Message = Message(header: Header, body: seq<Field>)

  /** Encoded widths of each field kind; a string costs `strExtra` bytes of
      length prefix and terminator on top of its characters. */
  datatype Widths = Widths(i32: nat, i64: nat, dbl: nat, strExtra: nat)

  function FieldSize(w: Widths, f: Field): nat
  {
    match f
    case I32(_) => w.i32
    case I64(_) => w.i64
    case Dbl(_) => w.dbl
    case Str(s) => w.strExtra + |s|
  }

  function BodySize(w: Widths, fs: seq<Field>): nat
  {
    if fs == [] then 0 else FieldSize(w, fs[0]) + BodySize(w, fs[1..])
  }

  /** The header is packed as "llqq". */
  function HeaderSize(w: Widths): nat { 2 * w.i32 + 2 * w.i64 }

  /** Total encoded length of a message with this body, header included. */
  function MsgSize(w: Widths, body: seq<Field>): nat { HeaderSize(w) + BodySize(w, body) }

  lemma {:induction false} BodySizeAppend(w: Widths, a: seq<Field>, b: seq<Field>)
    ensures BodySize(w, a + b) == BodySize(w, a) + BodySize(w, b)
  {
    if a == [] {
      assert a + b == b;
    } else {
      assert (a + b)[1..] == a[1..] + b;
      BodySizeAppend(w, a[1..], b);
    }
  }
}
