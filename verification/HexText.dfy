/** Lower-case hexadecimal text of bytes. */
module HexText {
  import opened Primitives

  function Digit(n: bv4): (c: char)
    ensures IsDigit(c) && Value(c) == n
  {
    "0123456789abcdef"[n as int]
  }

  predicate IsDigit(c: char) { '0' <= c <= '9' || 'a' <= c <= 'f' }

  function Value(c: char): bv4 {
    match c
    case '1' => 1 case '2' => 2 case '3' => 3 case '4' => 4 case '5' => 5
    case '6' => 6 case '7' => 7 case '8' => 8 case '9' => 9 case 'a' => 10
    case 'b' => 11 case 'c' => 12 case 'd' => 13 case 'e' => 14 case 'f' => 15
    case _ => 0
  }

  /** n digits and nothing else. */
  predicate IsHex(s: string, n: nat) {
    |s| == n && forall c <- s :: IsDigit(c)
  }

  function Hex(bytes: Bytes): (s: string)
    ensures IsHex(s, 2 * |bytes|)
  {
    if bytes == [] then ""
    else [Digit((bytes[0] >> 4) as bv4), Digit((bytes[0] & 0xF) as bv4)] + Hex(bytes[1..])
  }

  /** Two digits at a time. */
  function Unhex(s: string): Bytes {
    if |s| < 2 then [] else [((Value(s[0]) as bv8) << 4) | (Value(s[1]) as bv8)] + Unhex(s[2..])
  }

  lemma {:induction false} UnhexHex(bytes: Bytes)
    ensures Unhex(Hex(bytes)) == bytes
  {
    if bytes != [] {
      UnhexHex(bytes[1..]);
      Nibbles(bytes[0]);
      assert Hex(bytes)[2..] == Hex(bytes[1..]);
    }
  }

  lemma Nibbles(b: bv8)
    ensures ((((b >> 4) as bv4) as bv8) << 4) | (((b & 0xF) as bv4) as bv8) == b
  {}
}
