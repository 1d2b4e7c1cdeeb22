/**
 * The X-macro enumerations of sos_types.h.
 *
 * Each FOREACH_<T> list is expanded twice: GENERATE_ENUM numbers its
 * entries 0, 1, 2, ... in listed order, and GENERATE_STRING turns the same
 * list into the `SOS_<T>_str` table of enumerator names. Every
 * enumerator of `<T>` is spelled `<T>_<suffix>`, so a family is its type
 * name and the ordered list of suffixes, with the sentinel `<T>___MAX`
 * (suffix `__MAX`) last: the ordinal of an enumerator is its position, and
 * the `_str` table has `___MAX + 1` entries.
 */
module Enums {
  import opened Wrappers

  datatype Family = Family(typeName: string, suffixes: seq<string>)

  const ROLE := Family("SOS_ROLE", [
      "UNASSIGNED",
      "CLIENT",
      "LISTENER",
      "AGGREGATOR",
      "ANALYTICS",
      "RUNTIME_UTILITY",
      "OFFLINE_TEST_MODE",
      "__MAX"])

  const STATUS := Family("SOS_STATUS", [
      "INIT",
      "RUNNING",
      "HALTING",
      "SHUTDOWN",
      "__MAX"])

  const MSG_TYPE := Family("SOS_MSG_TYPE", [
      "NULLMSG",
      "REGISTER",
      "UNREGISTER",
      "GUID_BLOCK",
      "ANNOUNCE",
      "PUBLISH",
      "VAL_SNAPS",
      "ECHO",
      "PROBE",
      "SHUTDOWN",
      "ACK",
      "CHECK_IN",
      "QUERY",
      "MATCH_PUBS",
      "MATCH_VALS",
      "FEEDBACK",
      "SENSITIVITY",
      "DESENSITIZE",
      "TRIGGERPULL",
      "KMEAN_DATA",
      "__MAX"])

  const RECEIVES := Family("SOS_RECEIVES", [
      "DIRECT_MESSAGES",
      "TIMED_CHECKIN",
      "MANUAL_CHECKIN",
      "NO_FEEDBACK",
      "DAEMON_MODE",
      "__MAX"])

  const FEEDBACK_TYPE := Family("SOS_FEEDBACK_TYPE", [
      "PAYLOAD",
      "QUERY",
      "MATCH_PUBS",
      "MATCH_VALS",
      "__MAX"])

  const QUERY_STATE := Family("SOS_QUERY_STATE", [
      "INCOMING",
      "PENDING",
      "PROCESSED",
      "REPLIED",
      "__MAX"])

  const PRI := Family("SOS_PRI", [
      "DEFAULT",
      "LOW",
      "IMMEDIATE",
      "__MAX"])

  const GEOMETRY := Family("SOS_GEOMETRY", [
      "POINT",
      "HEXAHEDRON",
      "__MAX"])

  const VAL_TYPE := Family("SOS_VAL_TYPE", [
      "INT",
      "LONG",
      "DOUBLE",
      "STRING",
      "BYTES",
      "__MAX"])

  const VAL_SYNC := Family("SOS_VAL_SYNC", [
      "DEFAULT",
      "RENEW",
      "LOCAL",
      "CLOUD",
      "__MAX"])

  const VAL_STATE := Family("SOS_VAL_STATE", [
      "CLEAN",
      "DIRTY",
      "EMPTY",
      "__MAX"])

  const VAL_CLASS := Family("SOS_VAL_CLASS", [
      "DATA",
      "EVENT",
      "__MAX"])

  const VAL_SEMANTIC := Family("SOS_VAL_SEMANTIC", [
      "DEFAULT",
      "TIME_START",
      "TIME_STOP",
      "TIME_STAMP",
      "TIME_SPAN",
      "SAMPLE",
      "COUNTER",
      "LOG",
      "__MAX"])

  const VAL_FREQ := Family("SOS_VAL_FREQ", [
      "DEFAULT",
      "RARE",
      "COMMON",
      "CONTINUOUS",
      "IRREGULAR",
      "__MAX"])

  const VAL_PATTERN := Family("SOS_VAL_PATTERN", [
      "DEFAULT",
      "STATIC",
      "RISING",
      "PLATEAU",
      "OSCILLATING",
      "ARC",
      "__MAX"])

  const REGEX := Family("SOS_REGEX", [
      "UNUSED",
      "DOT",
      "BEGIN",
      "END",
      "QUESTIONMARK",
      "STAR",
      "PLUS",
      "CHAR",
      "CHAR_CLASS",
      "INV_CHAR_CLASS",
      "DIGIT",
      "NOT_DIGIT",
      "ALPHA",
      "NOT_ALPHA",
      "WHITESPACE",
      "NOT_WHITESPACE",
      "__MAX"])

  const VAL_COMPARE := Family("SOS_VAL_COMPARE", [
      "SELF",
      "RELATIONS",
      "__MAX"])

  const SCOPE := Family("SOS_SCOPE", [
      "DEFAULT",
      "SELF",
      "NODE",
      "AGGREGATOR",
      "GLOBAL",
      "__MAX"])

  const LAYER := Family("SOS_LAYER", [
      "DEFAULT",
      "APP",
      "OS",
      "LIB",
      "ENVIRONMENT",
      "SOS_RUNTIME",
      "__MAX"])

  const NATURE := Family("SOS_NATURE", [
      "DEFAULT",
      "CREATE_INPUT",
      "CREATE_OUTPUT",
      "CREATE_VIZ",
      "EXEC_WORK",
      "BUFFER",
      "SUPPORT_EXEC",
      "SUPPORT_FLOW",
      "CONTROL_FLOW",
      "KMEAN_2D",
      "SOS",
      "__MAX"])

  const RETAIN := Family("SOS_RETAIN", [
      "DEFAULT",
      "SESSION",
      "IMMEDIATE",
      "__MAX"])

  const LOCALE := Family("SOS_LOCALE", [
      "DEFAULT",
      "INDEPENDENT",
      "DAEMON_DBMS",
      "APPLICATION",
      "__MAX"])

  const AllFamilies: seq<Family> := [
    ROLE, STATUS, MSG_TYPE, RECEIVES, FEEDBACK_TYPE, QUERY_STATE, PRI, GEOMETRY, VAL_TYPE, VAL_SYNC, VAL_STATE, VAL_CLASS, VAL_SEMANTIC, VAL_FREQ, VAL_PATTERN, REGEX, VAL_COMPARE, SCOPE, LAYER, NATURE, RETAIN, LOCALE]

  /** The `SOS_<T>_str` table GENERATE_STRING produces. */
  function Names(f: Family): (names: seq<string>)
    ensures |names| == |f.suffixes|
    ensures forall i :: 0 <= i < |names| ==> names[i] == f.typeName + "_" + f.suffixes[i]
  {
    seq(|f.suffixes|, i requires 0 <= i < |f.suffixes| => f.typeName + "_" + f.suffixes[i])
  }

  /** The value of `<T>___MAX`: the sentinel's own position. */
  function MaxOf(f: Family): int { |f.suffixes| - 1 }

  /** SOS_ENUM_IN_RANGE(v, MAX). */
  predicate InRange(v: int, max: int) { v >= 0 && v < max }

  /** The literal SOS_ENUM_STR falls back to: "** " #T " is INVALID **". */
  function InvalidStr(f: Family): string { "** " + f.typeName + " is INVALID **" }

  /** SOS_ENUM_STR(v, T): the `_str` entry when in range, else the INVALID literal. */
  function EnumStr(v: int, f: Family): string
  {
    if InRange(v, MaxOf(f)) then Names(f)[v] else InvalidStr(f)
  }

  /** A family as the X-macro produces it: a non-empty list ending with the
      `<T>___MAX` sentinel, for a type name spelled `SOS_...`. */
  ghost predicate WellFormed(f: Family)
  {
    && |f.suffixes| > 0
    && f.suffixes[|f.suffixes| - 1] == "__MAX"
    && |f.typeName| >= 4 && f.typeName[..4] == "SOS_"
  }

  lemma AllFamiliesWellFormed()
    ensures forall i :: 0 <= i < |AllFamilies| ==> WellFormed(AllFamilies[i])
  {
  }

  /** The INVALID literal never collides with an enumerator name, so a caller
      can tell from SOS_ENUM_STR's result alone whether the value was in range;
      and in range, the result is the name at that ordinal. */
  lemma {:induction false} EnumStrInvalidIffOutOfRange(f: Family, v: int)
    requires WellFormed(f)
    ensures EnumStr(v, f) == InvalidStr(f) <==> !InRange(v, MaxOf(f))
    ensures InRange(v, MaxOf(f)) ==> EnumStr(v, f) == f.typeName + "_" + f.suffixes[v]
    ensures Names(f)[MaxOf(f)] == f.typeName + "___MAX"
  {
    if InRange(v, MaxOf(f)) {
      var name := Names(f)[v];
      assert name[0] == f.typeName[..4][0] == 'S';
      assert InvalidStr(f)[0] == '*';
    }
    assert f.typeName + "_" + "__MAX" == f.typeName + "___MAX";
  }

  // ---------------------------------------------------------------------
  // The three enumerations the core branches on, as datatypes whose
  // ordinals are checked against the X-macro lists above.

  datatype ValType = Int | Long | Double | String | Bytes

  function ValTypeOrdinal(t: ValType): nat
  {
    match t
    case Int => 0
    case Long => 1
    case Double => 2
    case String => 3
    case Bytes => 4
  }

  function ValTypeName(t: ValType): string
  {
    match t
    case Int => "SOS_VAL_TYPE_INT"
    case Long => "SOS_VAL_TYPE_LONG"
    case Double => "SOS_VAL_TYPE_DOUBLE"
    case String => "SOS_VAL_TYPE_STRING"
    case Bytes => "SOS_VAL_TYPE_BYTES"
  }

  /** Decoding a type tag received on the wire. */
  function ValTypeFromOrdinal(n: int): (r: Option<ValType>)
    ensures r.Some? <==> InRange(n, MaxOf(VAL_TYPE))
    ensures r.Some? ==> ValTypeOrdinal(r.value) == n
  {
    if n == 0 then Some(Int)
    else if n == 1 then Some(Long)
    else if n == 2 then Some(Double)
    else if n == 3 then Some(String)
    else if n == 4 then Some(Bytes)
    else None
  }

  /** GENERATE_ENUM and GENERATE_STRING agree: the ordinal of each value type
      is in range, decodes back to it, and indexes its own name in the table. */
  lemma ValTypeTable(t: ValType)
    ensures InRange(ValTypeOrdinal(t), MaxOf(VAL_TYPE))
    ensures ValTypeFromOrdinal(ValTypeOrdinal(t)) == Some(t)
    ensures EnumStr(ValTypeOrdinal(t), VAL_TYPE) == ValTypeName(t)
  {
  }

  datatype ValState = Clean | Dirty | Empty

  function ValStateOrdinal(s: ValState): nat
  {
    match s
    case Clean => 0
    case Dirty => 1
    case Empty => 2
  }

  function ValStateName(s: ValState): string
  {
    match s
    case Clean => "SOS_VAL_STATE_CLEAN"
    case Dirty => "SOS_VAL_STATE_DIRTY"
    case Empty => "SOS_VAL_STATE_EMPTY"
  }

  function ValStateFromOrdinal(n: int): (r: Option<ValState>)
    ensures r.Some? <==> InRange(n, MaxOf(VAL_STATE))
    ensures r.Some? ==> ValStateOrdinal(r.value) == n
  {
    if n == 0 then Some(Clean)
    else if n == 1 then Some(Dirty)
    else if n == 2 then Some(Empty)
    else None
  }

  lemma ValStateTable(s: ValState)
    ensures InRange(ValStateOrdinal(s), MaxOf(VAL_STATE))
    ensures ValStateFromOrdinal(ValStateOrdinal(s)) == Some(s)
    ensures EnumStr(ValStateOrdinal(s), VAL_STATE) == ValStateName(s)
  {
  }

  datatype MsgType =
    | NullMsg | Register | Unregister | GuidBlock | Announce | Publish
    | ValSnaps | Echo | Probe | Shutdown | Ack | CheckIn | Query
    | MatchPubs | MatchVals | Feedback | Sensitivity | Desensitize
    | TriggerPull | KmeanData

  function MsgTypeOrdinal(m: MsgType): nat
  {
    match m
    case NullMsg => 0
    case Register => 1
    case Unregister => 2
    case GuidBlock => 3
    case Announce => 4
    case Publish => 5
    case ValSnaps => 6
    case Echo => 7
    case Probe => 8
    case Shutdown => 9
    case Ack => 10
    case CheckIn => 11
    case Query => 12
    case MatchPubs => 13
    case MatchVals => 14
    case Feedback => 15
    case Sensitivity => 16
    case Desensitize => 17
    case TriggerPull => 18
    case KmeanData => 19
  }

  function MsgTypeFromOrdinal(n: int): (r: Option<MsgType>)
    ensures r.Some? <==> InRange(n, MaxOf(MSG_TYPE))
    ensures r.Some? ==> MsgTypeOrdinal(r.value) == n
  {
    MsgTypeCount();
    match n
    case 0 => Some(NullMsg)
    case 1 => Some(Register)
    case 2 => Some(Unregister)
    case 3 => Some(GuidBlock)
    case 4 => Some(Announce)
    case 5 => Some(Publish)
    case 6 => Some(ValSnaps)
    case 7 => Some(Echo)
    case 8 => Some(Probe)
    case 9 => Some(Shutdown)
    case 10 => Some(Ack)
    case 11 => Some(CheckIn)
    case 12 => Some(Query)
    case 13 => Some(MatchPubs)
    case 14 => Some(MatchVals)
    case 15 => Some(Feedback)
    case 16 => Some(Sensitivity)
    case 17 => Some(Desensitize)
    case 18 => Some(TriggerPull)
    case 19 => Some(KmeanData)
    case _ => None
  }

  /** SOS_MSG_TYPE lists twenty message types before its sentinel. */
  lemma MsgTypeCount()
    ensures MaxOf(MSG_TYPE) == 20
  {
  }

  /** The message-type ordinals round-trip through the wire tag. */
  lemma MsgTypeTable(m: MsgType)
    ensures InRange(MsgTypeOrdinal(m), MaxOf(MSG_TYPE))
    ensures MsgTypeFromOrdinal(MsgTypeOrdinal(m)) == Some(m)
  {
  }
}
