/**
 * SOS_strip_str: the sanitiser applied to strings before they are used in
 * generated SQL and JSON. C strings are modelled as character buffers whose
 * content ends at the first NUL.
 */
module Text {
  const Nul: char := 0 as char

  /** strlen: the index of the first NUL, or the whole buffer when there is none. */
  function StrLen(s: seq<char>): (n: nat)
    ensures n <= |s|
    ensures forall i :: 0 <= i < n ==> s[i] != Nul
    ensures n < |s| ==> s[n] == Nul
  {
    if |s| == 0 then 0
    else if s[0] == Nul then 0
    else 1 + StrLen(s[1..])
  }

  predicate Printable(c: char) { ' ' <= c <= '~' }

  /** The per-character rule: a double quote becomes a single quote, then
      anything outside the printable ASCII range becomes '#'. */
  function StripChar(c: char): (r: char)
    ensures Printable(r) && r != '"'
    ensures Printable(c) && c != '"' ==> r == c
    ensures c == '"' ==> r == '\''
    ensures !Printable(c) ==> r == '#'
  {
    var c' := if c == '"' then '\'' else c;
    if c' < ' ' || c' > '~' then '#' else c'
  }

  /** The characters before the terminator are clean. */
  predicate Stripped(s: seq<char>)
  {
    forall i :: 0 <= i < StrLen(s) ==> Printable(s[i]) && s[i] != '"'
  }

  /** What SOS_strip_str leaves in a buffer: the per-character rule applied
      before the terminator, everything from the terminator on untouched. */
  function Strip(s: seq<char>): (r: seq<char>)
    ensures |r| == |s|
  {
    seq(|s|, i requires 0 <= i < |s| => if i < StrLen(s) then StripChar(s[i]) else s[i])
  }

  /** SOS_strip_str, as its loop runs: the length is taken once, then each
      character before it is rewritten in place. */
  method StripStr(s: seq<char>) returns (r: seq<char>)
    ensures r == Strip(s)
    ensures |r| == |s| && StrLen(r) == StrLen(s)
    ensures forall i :: 0 <= i < StrLen(s) ==> r[i] == StripChar(s[i])
    ensures forall i :: StrLen(s) <= i < |s| ==> r[i] == s[i]
    ensures Stripped(r)
  {
    r := s;
    var len := StrLen(s);
    var i := 0;
    while i < len
      invariant |r| == |s| && i <= len == StrLen(s)
      invariant forall j :: 0 <= j < i ==> r[j] == StripChar(s[j])
      invariant forall j :: i <= j < |s| ==> r[j] == s[j]
      invariant StrLen(r) == StrLen(s)
      decreases |s| - i
    {
      var c := r[i];
      if c == '"' {
        c := '\'';
      }
      if c < ' ' || c > '~' {
        c := '#';
      }
      StrLenUpdate(r, i, c);
      r := r[i := c];
      i := i + 1;
    }
  }

  /** Overwriting a character before the terminator with a non-NUL keeps the length. */
  lemma {:induction false} StrLenUpdate(s: seq<char>, i: nat, c: char)
    requires i < StrLen(s) && c != Nul
    ensures StrLen(s[i := c]) == StrLen(s)
  {
    if i > 0 {
      assert s[i := c][1..] == s[1..][i - 1 := c];
      StrLenUpdate(s[1..], i - 1, c);
    } else {
      assert s[i := c][1..] == s[1..];
    }
  }

  /** Stripping is idempotent: a buffer comes back from SOS_strip_str
      unchanged exactly when it is already stripped. */
  lemma StripIdempotent(s: seq<char>)
    ensures Stripped(s) <==> Strip(s) == s
  {
    if Stripped(s) {
      assert forall i :: 0 <= i < |s| ==> Strip(s)[i] == s[i];
    }
    if Strip(s) == s {
      assert forall i :: 0 <= i < StrLen(s) ==> s[i] == Strip(s)[i] == StripChar(s[i]);
    }
  }

  /** Stripping never touches a NUL or adds one, so the string keeps its length. */
  lemma {:induction false} StripKeepsStrLen(s: seq<char>)
    ensures StrLen(Strip(s)) == StrLen(s)
    decreases |s|
  {
    if |s| > 0 && s[0] != Nul {
      assert Strip(s)[0] == StripChar(s[0]) != Nul;
      assert Strip(s)[1..] == Strip(s[1..]);
      StripKeepsStrLen(s[1..]);
    }
  }

  /** Stripping twice is stripping once: the result of SOS_strip_str is clean,
      and a second pass leaves it as it is. */
  lemma StripTwice(s: seq<char>)
    ensures Stripped(Strip(s)) && Strip(Strip(s)) == Strip(s)
  {
    StripKeepsStrLen(s);
    StripIdempotent(Strip(s));
  }
}
