/**
 * Fixed-width words laid end to end as one little-endian bit stream: the
 * stream of `ws` at width `w` holds the `w` low bits of `ws[0]`, least
 * significant first, then those of `ws[1]`, and so on. SBUS puts its 16
 * eleven-bit channels on the wire this way, and a frame's payload is the
 * same stream cut into eight-bit bytes; this module states the packing
 * once, for any width (a generic bit writer and bit reader).
 */
module BitStream {
  import opened PyBits

  /** Bits `k .. k + n - 1` of `x`, least significant first. */
  function Field(x: int, k: nat, n: nat): (f: seq<bool>)
    ensures |f| == n
    ensures forall t :: 0 <= t < n ==> f[t] == Bit(x, k + t)
  {
    seq(n, t requires 0 <= t < n => Bit(x, k + t))
  }

  /** The words of `ws`, `width` bits each, one after the other. */
  function Stream(ws: seq<int>, width: nat): (s: seq<bool>)
    ensures |s| == |ws| * width
  {
    if ws == [] then [] else Field(ws[0], 0, width) + Stream(ws[1..], width)
  }

  /** The number whose binary digits, least significant first, are `bits`. */
  function Value(bits: seq<bool>): nat
  {
    if bits == [] then 0 else (if bits[0] then 1 else 0) + 2 * Value(bits[1..])
  }

  lemma {:induction false} ValueAppend(a: seq<bool>, b: seq<bool>)
    ensures Value(a + b) == Value(a) + Pow2(|a|) * Value(b)
  {
    if a == [] {
      assert a + b == b;
    } else {
      var d := if a[0] then 1 else 0;
      var va, vb, p := Value(a[1..]), Value(b), Pow2(|a| - 1);
      assert (a + b)[1..] == a[1..] + b;
      ValueAppend(a[1..], b);
      assert (a + b)[0] == a[0];
      MulAssociates(2, p, vb);
    }
  }

  /** Reading the bits of a field back gives the shifted and masked word. */
  lemma {:induction false} ValueOfField(x: int, k: nat, n: nat)
    ensures Value(Field(x, k, n)) == (x / Pow2(k)) % Pow2(n)
    decreases n
  {
    if n > 0 {
      var y := x / Pow2(k);
      assert Field(x, k, n)[1..] == Field(x, k + 1, n - 1);
      ValueOfField(x, k + 1, n - 1);
      Pow2Add(k, 1);
      DivModNested(x, Pow2(k), 2);
      DivModNested(y, 2, Pow2(n - 1));
    }
  }

  /** Bit `t` of `Value(bits)` is `bits[t]`. */
  lemma {:induction false} BitOfValue(bits: seq<bool>, t: nat)
    requires t < |bits|
    ensures Bit(Value(bits), t) == bits[t]
  {
    if t > 0 {
      BitOfHalf(Value(bits), t - 1);
      BitOfValue(bits[1..], t - 1);
    }
  }

  lemma DivModShift(p: int, w: int)
    requires w > 0
    ensures (p + w) / w == p / w + 1 && (p + w) % w == p % w
  {
    MulDistributes(w, p / w, 1);
    DivModUnique(p + w, w, p / w + 1, p % w);
  }

  /** Stream position `p` is bit `p % width` of word `p / width`. */
  lemma {:induction false} StreamAt(ws: seq<int>, width: nat, p: nat)
    requires 0 < width && p < |Stream(ws, width)|
    ensures p / width < |ws|
    ensures Stream(ws, width)[p] == Bit(ws[p / width], p % width)
  {
    assert ws != [];
    var rest := Stream(ws[1..], width);
    assert Stream(ws, width) == Field(ws[0], 0, width) + rest;
    if p < width {
      DivModUnique(p, width, 0, p);
    } else {
      StreamAt(ws[1..], width, p - width);
      DivModShift(p - width, width);
    }
  }

  /** A slice of the stream that stays inside word `i`, from bit `k` of it on, is a field of that word. */
  lemma StreamSlice(ws: seq<int>, width: nat, i: nat, k: nat, n: nat, a: nat)
    requires i < |ws| && k + n <= width && a == i * width + k
    ensures a + n <= |Stream(ws, width)|
    ensures Stream(ws, width)[a .. a + n] == Field(ws[i], k, n)
  {
    var s := Stream(ws, width);
    assert i * width + width <= |s| by {
      MulMonotone(i + 1, |ws|, width);
      MulDistributes(width, i, 1);
    }
    var slice := s[a .. a + n];
    forall t | 0 <= t < n
      ensures slice[t] == Field(ws[i], k, n)[t]
    {
      var p := a + t;
      StreamAt(ws, width, p);
      assert p == width * i + (k + t);
      DivModUnique(p, width, i, k + t);
    }
  }

  /** A slice's value is the value of its lower `n` bits plus its upper part shifted past them. */
  lemma SliceValueSplit(s: seq<bool>, a: nat, b: nat, c: nat, n: nat)
    requires a <= b <= c <= |s| && b == a + n
    ensures Value(s[a..c]) == Value(s[a..b]) + Pow2(n) * Value(s[b..c])
  {
    assert s[a..c] == s[a..b] + s[b..c];
    ValueAppend(s[a..b], s[b..c]);
  }

  /**
   * The value of the `n` stream bits from `a`, which lie inside word `i`
   * from its bit `k` on, is that word shifted right by `k` and masked to `n` bits.
   */
  lemma SliceValue(ws: seq<int>, width: nat, i: nat, k: nat, n: nat, a: nat, e: nat)
    requires i < |ws| && k + n <= width && a == i * width + k && e == a + n
    ensures e <= |Stream(ws, width)|
    ensures Value(Stream(ws, width)[a .. e]) == (ws[i] / Pow2(k)) % Pow2(n)
  {
    StreamSlice(ws, width, i, k, n, a);
    ValueOfField(ws[i], k, n);
  }
}
