/** Little-endian number fields inside a byte sequence. */
module ByteFields {
  import opened Lines

  function Pow256(n: nat): (r: nat)
    ensures r > 0
  {
    if n == 0 then 1 else 256 * Pow256(n - 1)
  }

  function LeBytes(v: nat, n: nat): (r: seq<Byte>)
    ensures |r| == n
    decreases v, n
  {
    if n == 0 then [] else [v % 256] + LeBytes(v / 256, n - 1)
  }

  /** The number in the `n` bytes at `pos`, lowest byte first. */
  function Num(b: seq<Byte>, pos: nat, n: nat): (v: nat)
    requires pos + n <= |b|
    ensures v < Pow256(n)
    decreases |b| - pos
  {
    if n == 0 then 0 else b[pos] + 256 * Num(b, pos + 1, n - 1)
  }

  /** The bytes `x` stand at position `pos` of `b`. */
  predicate Has(b: seq<Byte>, pos: nat, x: seq<Byte>) {
    pos + |x| <= |b| && b[pos..pos + |x|] == x
  }

  lemma HasSplit(b: seq<Byte>, pos: nat, x: seq<Byte>, y: seq<Byte>)
    ensures Has(b, pos, x + y) <==> Has(b, pos, x) && Has(b, pos + |x|, y)
  {
    if Has(b, pos, x + y) {
      assert x == (x + y)[..|x|] && y == (x + y)[|x|..];
      assert b[pos..pos + |x|] == b[pos..pos + |x + y|][..|x|];
      assert b[pos + |x|..pos + |x| + |y|] == b[pos..pos + |x + y|][|x|..];
    }
    if Has(b, pos, x) && Has(b, pos + |x|, y) {
      Glue(b, pos, pos + |x|, pos + |x| + |y|);
    }
  }

  /** A field holds a number exactly when its bytes are the number's bytes. */
  lemma {:induction false} NumberField(b: seq<Byte>, pos: nat, v: nat, n: nat)
    requires v < Pow256(n)
    ensures Has(b, pos, LeBytes(v, n)) <==> pos + n <= |b| && Num(b, pos, n) == v
    decreases n
  {
    if n > 0 {
      assert v / 256 < Pow256(n - 1);
      HasSplit(b, pos, [v % 256], LeBytes(v / 256, n - 1));
      NumberField(b, pos + 1, v / 256, n - 1);
      assert v == 256 * (v / 256) + v % 256;
      if pos + n <= |b| {
        assert b[pos..pos + 1] == [b[pos]];
        var rest := Num(b, pos + 1, n - 1);
        assert (b[pos] + 256 * rest) / 256 == rest && (b[pos] + 256 * rest) % 256 == b[pos];
      }
    }
  }
}
