/** hash_key: a wrapping 32-bit loop (hash * 33 + c) over signed characters, reduced modulo the capacity. */
module Hash {
  import opened CStrings

  const WORD: int := 0x1_0000_0000
  const SEED: int := 5381

  // Arithmetic on uint32_t wraps; a negative character is converted before it is added.
  function Wrap(x: int): (r: nat)
    ensures r < WORD
  {
    x % WORD
  }

  // The hash as an unbounded integer polynomial in 33, by Horner's rule.
  function Horner(key: CString): int
  {
    if key == [] then SEED else 33 * Horner(key[..|key| - 1]) + key[|key| - 1]
  }

  function Pow33(n: nat): (p: nat)
    ensures p >= 1
  {
    if n == 0 then 1 else 33 * Pow33(n - 1)
  }

  // c_0 * 33^(n-1) + c_1 * 33^(n-2) + ... + c_(n-1)
  function WeightedSum(key: CString): int
  {
    if key == [] then 0 else key[0] * Pow33(|key| - 1) + WeightedSum(key[1..])
  }

  function Bits(key: CString): (h: nat)
    ensures h < WORD
  {
    Wrap(SEED * Pow33(|key|) + WeightedSum(key))
  }

  // The slot a search for key starts from.
  function Start(key: CString, capacity: nat): (s: nat)
    requires capacity > 0
    ensures s < capacity
  {
    Bits(key) % capacity
  }

  lemma {:induction false} WeightedSumSnoc(key: CString)
    requires key != []
    ensures WeightedSum(key) == 33 * WeightedSum(key[..|key| - 1]) + key[|key| - 1]
  {
    if |key| == 1 {
      assert key[1..] == [];
      assert Pow33(0) == 1;
    } else {
      var front, tail := key[..|key| - 1], key[1..];
      WeightedSumSnoc(tail);
      assert tail[..|tail| - 1] == front[1..];
      assert Pow33(|key| - 1) == 33 * Pow33(|key| - 2);
      var c, p := key[0], Pow33(|key| - 2);
      assert c * (33 * p) == 33 * (c * p);
    }
  }

  lemma {:induction false} HornerIsPolynomial(key: CString)
    ensures Horner(key) == SEED * Pow33(|key|) + WeightedSum(key)
  {
    if key == [] {
    } else {
      HornerIsPolynomial(key[..|key| - 1]);
      WeightedSumSnoc(key);
    }
  }

  lemma WrapAbsorbs(a: int, b: int)
    ensures Wrap(33 * Wrap(a) + b) == Wrap(33 * a + b)
  {
    var q := a / WORD;
    assert a == WORD * q + Wrap(a);
    WrapShift(33 * Wrap(a) + b, 33 * q);
  }

  lemma WrapShift(x: int, m: int)
    ensures Wrap(x + WORD * m) == Wrap(x)
  {
  }

  lemma WrapSmall(x: nat)
    requires x < WORD
    ensures Wrap(x) == x
  {
  }

  // (hash << 5) + hash, each operation wrapping, is multiplication by 33 under wrap-around.
  lemma ShiftAddIs33(h: nat, c: int)
    requires h < WORD
    ensures Wrap(Wrap(Wrap(h * 32) + h) + c) == Wrap(33 * h + c)
  {
    var a := 32 * h;
    WrapShift(Wrap(a) + h, a / WORD);
    assert Wrap(a) + h + WORD * (a / WORD) == 33 * h;
    var b := 33 * h;
    WrapShift(Wrap(b) + c, b / WORD);
    assert Wrap(b) + c + WORD * (b / WORD) == 33 * h + c;
  }

  method HashKey(key: CString, capacity: nat) returns (index: nat)
    requires 0 < capacity < WORD
    ensures index == Start(key, capacity)
    ensures index == ((5381 * Pow33(|key|) + WeightedSum(key)) % 0x1_0000_0000) % capacity
    ensures index < capacity
  {
    var hash: nat := SEED;
    var i := 0;
    while i < |key|
      invariant i <= |key|
      invariant hash == Wrap(Horner(key[..i]))
    {
      var c := key[i];
      ShiftAddIs33(hash, c);
      WrapAbsorbs(Horner(key[..i]), c);
      assert key[..i + 1][..i] == key[..i];
      hash := Wrap(Wrap(Wrap(hash * 32) + hash) + c);
      i := i + 1;
    }
    assert key[..|key|] == key;
    HornerIsPolynomial(key);
    index := hash % capacity;
  }

  // "a", and two characters with the high bit set, which count as negative.
  lemma HashInstances()
    ensures Start([97], 1000) == 670
    ensures Start([-61, -87], 1000) == 809
  {
    var a: CString, e: CString := [97], [-61, -87];
    assert a[..0] == [] && e[..1] == [-61] && e[..1][..0] == [];
    assert Horner(a) == 33 * 5381 + 97;
    assert Horner(e) == 33 * (33 * 5381 - 61) - 87;
    HornerIsPolynomial(a);
    HornerIsPolynomial(e);
  }
}
