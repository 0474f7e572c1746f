/** Machine words and NUL-terminated strings in character buffers. */
module Strings {

  /** A number reduced to a signed 32-bit word. */
  function Int32(x: int): (r: int)
    ensures -0x8000_0000 <= r < 0x8000_0000
    ensures -0x8000_0000 <= x < 0x8000_0000 ==> r == x
  {
    var y := x % 0x1_0000_0000;
    if y < 0x8000_0000 then y else y - 0x1_0000_0000
  }

  predicate IsInt32(x: int) { -0x8000_0000 <= x < 0x8000_0000 }

  predicate NoNul(s: string) { forall i :: 0 <= i < |s| ==> s[i] != '\0' }

  /** The buffer holds a string from position p on, ended by a NUL. */
  predicate Holds(b: seq<char>, p: nat, s: string) {
    p + |s| < |b| && NoNul(s) && b[p + |s|] == '\0' && forall i :: 0 <= i < |s| ==> b[p + i] == s[i]
  }
}
