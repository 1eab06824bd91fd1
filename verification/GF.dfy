// Arithmetic of the code symbols.  The repository computes in GF(2^8) through
// Jerasure and ISA-L; here the field is a parameter with the laws it has to
// obey, over the same representation: an element is an integer in 0..255 and
// 0, 1, 2 are the constants the coding matrices are built from.
module GF {
  type Byte = x: int | 0 <= x < 256

  datatype Field = Field(add: (Byte, Byte) -> Byte, mul: (Byte, Byte) -> Byte, inv: Byte -> Byte)

  // The laws of a field of characteristic 2, at one triple of elements.
  ghost predicate LawsAt(f: Field, a: Byte, b: Byte, c: Byte) {
    && f.add(a, b) == f.add(b, a)
    && f.add(f.add(a, b), c) == f.add(a, f.add(b, c))
    && f.add(a, 0) == a
    && f.add(a, a) == 0
    && f.mul(a, b) == f.mul(b, a)
    && f.mul(f.mul(a, b), c) == f.mul(a, f.mul(b, c))
    && f.mul(a, 1) == a
    && f.mul(a, 0) == 0
    && f.mul(a, f.add(b, c)) == f.add(f.mul(a, b), f.mul(a, c))
    && (a != 0 ==> f.mul(a, f.inv(a)) == 1)
  }

  // Naming a triple is what makes the laws available at it; without this the
  // commutative laws would rewrite terms for ever.
  predicate At(a: Byte, b: Byte, c: Byte) { true }

  ghost predicate IsField(f: Field) {
    forall a: Byte, b: Byte, c: Byte {:trigger At(a, b, c)} :: At(a, b, c) ==> LawsAt(f, a, b, c)
  }

  lemma Laws(f: Field, a: Byte, b: Byte, c: Byte)
    requires IsField(f)
    ensures LawsAt(f, a, b, c)
  {
    assert At(a, b, c);
  }

  // (a + b) + (c + d) == (a + c) + (b + d)
  lemma Exchange(f: Field, a: Byte, b: Byte, c: Byte, d: Byte)
    requires IsField(f)
    ensures f.add(f.add(a, b), f.add(c, d)) == f.add(f.add(a, c), f.add(b, d))
  {
    Laws(f, a, b, f.add(c, d));
    Laws(f, b, c, d);
    Laws(f, c, b, d);
    Laws(f, a, c, f.add(b, d));
  }

  // Matrix entries are narrowed to a char before they reach the codec.
  function Cast(c: int): Byte { c % 256 }

  // A row that is shorter than its source list is padded with zeros.
  function CoefAt(cs: seq<int>, i: nat): Byte {
    if i < |cs| then Cast(cs[i]) else 0
  }

  // The linear combination  sum_i cs[i] * val(xs[i]).
  function Comb(f: Field, cs: seq<int>, xs: seq<int>, val: int -> Byte): Byte {
    if xs == [] then 0
    else
      var n := |xs| - 1;
      f.add(Comb(f, cs, xs[..n], val), f.mul(CoefAt(cs, n), val(xs[n])))
  }

  lemma {:induction false} CombAgrees(f: Field, cs: seq<int>, xs: seq<int>, v: int -> Byte, w: int -> Byte)
    requires forall i :: 0 <= i < |xs| ==> v(xs[i]) == w(xs[i])
    ensures Comb(f, cs, xs, v) == Comb(f, cs, xs, w)
  {
    if xs != [] {
      var n := |xs| - 1;
      CombAgrees(f, cs, xs[..n], v, w);
    }
  }

  lemma {:induction false} CombOfZeros(f: Field, cs: seq<int>, xs: seq<int>, v: int -> Byte)
    requires IsField(f)
    requires forall i :: 0 <= i < |xs| ==> v(xs[i]) == 0
    ensures Comb(f, cs, xs, v) == 0
  {
    if xs != [] {
      var n := |xs| - 1;
      CombOfZeros(f, cs, xs[..n], v);
      Laws(f, CoefAt(cs, n), 0, 0);
      Laws(f, 0, 0, 0);
    }
  }
}
