/** Numbers as bytes: the shift-and-mask arithmetic of the headers and nonces. */
module BigEndian {

  /** (n >> s) & 0xFF, where unit is 2 to the power s. */
  function ByteAt(n: nat, unit: nat): bv8
    requires unit > 0
  {
    (n / unit % 0x100) as bv8
  }

  /** The four bytes of a length, most significant first. */
  function LengthBytes(n: nat): (header: seq<bv8>)
    ensures |header| == 4
  {
    [ByteAt(n, 0x1000000), ByteAt(n, 0x10000), ByteAt(n, 0x100), ByteAt(n, 1)]
  }

  /** (b0 << 24) | (b1 << 16) | (b2 << 8) | b3; the shifted bytes do not overlap, so OR is addition. */
  function LengthOf(header: seq<bv8>): nat
    requires |header| == 4
  {
    Combined(header[0] as nat, header[1] as nat, header[2] as nat, header[3] as nat)
  }

  function Combined(a: nat, b: nat, c: nat, d: nat): nat { a * 0x1000000 + b * 0x10000 + c * 0x100 + d }

  lemma Successor(b: bv8)
    requires b != 0xFF
    ensures (b + 1) as nat == b as nat + 1
  {}

  lemma {:induction false} ByteOfValue(n: nat) returns (b: bv8)
    requires n < 0x100
    ensures b as nat == n
  {
    if n == 0 {
      b := 0;
    } else {
      b := ByteOfValue(n - 1);
      Successor(b);
      b := b + 1;
    }
  }

  lemma ByteRoundTrip(n: nat)
    requires n < 0x100
    ensures (n as bv8) as nat == n
  {
    var b := ByteOfValue(n);
    assert (b as nat) as bv8 == b;
  }

  lemma ByteAtValue(n: nat, unit: nat)
    requires unit > 0
    ensures ByteAt(n, unit) as nat == n / unit % 0x100
  {
    ByteRoundTrip(n / unit % 0x100);
  }

  lemma FourDigits(n: nat)
    requires n < 0x100000000
    ensures n / 0x1000000 % 0x100 * 0x1000000 + n / 0x10000 % 0x100 * 0x10000 + n / 0x100 % 0x100 * 0x100 + n / 1 % 0x100 == n
  {
    var q1, q2, q3 := n / 0x100, n / 0x10000, n / 0x1000000;
    assert q2 == q1 / 0x100 && q3 == q2 / 0x100 && q3 < 0x100;
    assert n == q1 * 0x100 + n % 0x100 && q1 == q2 * 0x100 + q1 % 0x100 && q2 == q3 * 0x100 + q2 % 0x100;
  }

  /** The first byte counts most, the last one units. */
  lemma LengthRoundTrip(n: nat)
    requires n < 0x100000000
    ensures LengthOf(LengthBytes(n)) == n
    ensures var b := LengthBytes(n);
      b[0] as nat * 0x1000000 + b[1] as nat * 0x10000 + b[2] as nat * 0x100 + b[3] as nat == n
  {
    hide ByteAt;
    ByteAtValue(n, 0x1000000);
    ByteAtValue(n, 0x10000);
    ByteAtValue(n, 0x100);
    ByteAtValue(n, 1);
    FourDigits(n);
  }

  /** Four bytes are the header of the number they write. */
  lemma HeaderIs(header: seq<bv8>)
    requires |header| == 4
    ensures LengthOf(header) < 0x100000000 && LengthBytes(LengthOf(header)) == header
  {
    HeaderDigits(header);
    hide ByteAt, LengthOf;
    var n := LengthOf(header);
    ByteAtValue(n, 0x1000000);
    ByteAtValue(n, 0x10000);
    ByteAtValue(n, 0x100);
    ByteAtValue(n, 1);
    SameByte(ByteAt(n, 0x1000000), header[0]);
    SameByte(ByteAt(n, 0x10000), header[1]);
    SameByte(ByteAt(n, 0x100), header[2]);
    SameByte(ByteAt(n, 1), header[3]);
  }

  lemma HeaderDigits(header: seq<bv8>)
    requires |header| == 4
    ensures var n := LengthOf(header);
      && n < 0x100000000 && n / 0x1000000 % 0x100 == header[0] as nat && n / 0x10000 % 0x100 == header[1] as nat
      && n / 0x100 % 0x100 == header[2] as nat && n / 1 % 0x100 == header[3] as nat
  {
    hide Combined;
    DigitsOf(header[0] as nat, header[1] as nat, header[2] as nat, header[3] as nat);
  }

  lemma SameByte(x: bv8, y: bv8)
    requires x as nat == y as nat
    ensures x == y
  {
    assert (x as nat) as bv8 == x && (y as nat) as bv8 == y;
  }

  lemma DigitsOf(a: nat, b: nat, c: nat, d: nat)
    requires a < 0x100 && b < 0x100 && c < 0x100 && d < 0x100
    ensures var n := Combined(a, b, c, d);
      n < 0x100000000 && n / 0x1000000 % 0x100 == a && n / 0x10000 % 0x100 == b && n / 0x100 % 0x100 == c && n / 1 % 0x100 == d
  {
    var n := a * 0x1000000 + b * 0x10000 + c * 0x100 + d;
    LastDigit(a * 0x10000 + b * 0x100 + c, d, n);
    LastDigit(a * 0x100 + b, c, n / 0x100);
    LastDigit(a, b, n / 0x100 / 0x100);
    DivTwice(n);
  }

  lemma LastDigit(q: nat, r: nat, n: nat)
    requires r < 0x100 && n == q * 0x100 + r
    ensures n / 0x100 == q && n % 0x100 == r
  {}

  lemma DivTwice(n: nat)
    ensures n / 0x10000 == n / 0x100 / 0x100 && n / 0x1000000 == n / 0x100 / 0x100 / 0x100
  {}
}
