/**
  The few pieces of java.lang / java.util behaviour the ledger classes rely on:
  nullable references, thrown exceptions, 32-bit `int` arithmetic and the
  `31 * h + x` hash fold used by `String.hashCode` and `Objects.hash`.
*/
module JavaLang {

  /** A nullable Java reference, or a `java.util.Optional`: `None` is null / empty. */
  datatype Option<+T> = None | Some(value: T)

  /** A `java.lang.Exception`, observed only through `getMessage()`, which may be null. */
  datatype JavaException = JavaException(message: Option<string>)

  /** Either the value a Java call returned or the exception it threw. */
  datatype Result<+T> = Returned(value: T) | Thrown(exception: JavaException)

  /** Java's 32-bit signed `int`. */
  newtype int32 = x: int | -0x8000_0000 <= x < 0x8000_0000

  const TWO_TO_THE_32: int := 0x1_0000_0000

  /** Two integers with the same low 32 bits. */
  predicate SameLow32(a: int, b: int) {
    (a - b) % TWO_TO_THE_32 == 0
  }

  /** Java `int` arithmetic: the one `int` value whose low 32 bits are those of the exact result `x`. */
  function Wrap(x: int): (r: int32)
    ensures SameLow32(x, r as int)
    ensures -0x8000_0000 <= x < 0x8000_0000 ==> r as int == x
  {
    ((x + 0x8000_0000) % TWO_TO_THE_32 - 0x8000_0000) as int32
  }

  /**
    The loop `h := seed; for x in xs { h := 31 * h + x }` in `int` arithmetic.
    `String.hashCode` is `Fold31(0, chars)`; `Objects.hash` (that is,
    `Arrays.hashCode`) is `Fold31(1, element hashes)`, with 0 for a null element.
  */
  function Fold31(seed: int32, xs: seq<int>): int32
  {
    if |xs| == 0 then seed
    else Wrap(31 * Fold31(seed, xs[..|xs| - 1]) as int + xs[|xs| - 1])
  }

  /** 31 to the power k. */
  function Pow31(k: nat): int
  {
    if k == 0 then 1 else 31 * Pow31(k - 1)
  }

  /** The documented closed form: xs[0]*31^(n-1) + xs[1]*31^(n-2) + ... + xs[n-1], exactly. */
  function Weighted(xs: seq<int>): int
  {
    if |xs| == 0 then 0 else xs[0] * Pow31(|xs| - 1) + Weighted(xs[1..])
  }

  lemma {:induction false} WeightedSnoc(xs: seq<int>, x: int)
    ensures Weighted(xs + [x]) == 31 * Weighted(xs) + x
  {
    if |xs| == 0 {
      assert xs + [x] == [x];
    } else {
      assert (xs + [x])[1..] == xs[1..] + [x];
      WeightedSnoc(xs[1..], x);
      calc {
        Weighted(xs + [x]);
        xs[0] * Pow31(|xs|) + Weighted(xs[1..] + [x]);
        xs[0] * (31 * Pow31(|xs| - 1)) + 31 * Weighted(xs[1..]) + x;
        { assert xs[0] * (31 * Pow31(|xs| - 1)) == 31 * (xs[0] * Pow31(|xs| - 1)); }
        31 * Weighted(xs) + x;
      }
    }
  }

  lemma MultipleOf32(k: int)
    ensures SameLow32(TWO_TO_THE_32 * k, 0)
  {
  }

  lemma SameLow32Step(a: int, b: int, x: int)
    requires SameLow32(a, b)
    ensures SameLow32(31 * a + x, 31 * b + x)
  {
    var k := (a - b) / TWO_TO_THE_32;
    assert a - b == TWO_TO_THE_32 * k;
    calc {
      (31 * a + x) - (31 * b + x);
      31 * (a - b);
      31 * (TWO_TO_THE_32 * k);
      TWO_TO_THE_32 * (31 * k);
    }
    MultipleOf32(31 * k);
  }

  lemma SameLow32Trans(a: int, b: int, c: int)
    requires SameLow32(a, b) && SameLow32(b, c)
    ensures SameLow32(a, c)
  {
    var k := (a - b) / TWO_TO_THE_32;
    var j := (b - c) / TWO_TO_THE_32;
    assert a - b == TWO_TO_THE_32 * k;
    assert b - c == TWO_TO_THE_32 * j;
    assert a - c == TWO_TO_THE_32 * (k + j);
    MultipleOf32(k + j);
  }

  lemma MulAssoc31(a: int, b: int)
    ensures a * (31 * b) == 31 * (a * b)
  {
  }

  /**
    The wrapped fold agrees, modulo 2^32, with the closed form
    seed*31^n + xs[0]*31^(n-1) + ... + xs[n-1] that the Java documentation gives.
  */
  lemma {:induction false} Fold31ClosedForm(seed: int32, xs: seq<int>)
    ensures SameLow32(Fold31(seed, xs) as int, seed as int * Pow31(|xs|) + Weighted(xs))
  {
    if |xs| == 0 {
    } else {
      var n := |xs|;
      var init, last := xs[..n - 1], xs[n - 1];
      assert xs == init + [last];
      Fold31ClosedForm(seed, init);
      var prev := Fold31(seed, init) as int;
      var exact := seed as int * Pow31(n - 1) + Weighted(init);
      SameLow32Step(prev, exact, last);
      WeightedSnoc(init, last);
      MulAssoc31(seed as int, Pow31(n - 1));
      assert 31 * exact + last == seed as int * Pow31(n) + Weighted(xs);
      assert Fold31(seed, xs) == Wrap(31 * prev + last);
      SameLow32Trans(Fold31(seed, xs) as int, 31 * prev + last, 31 * exact + last);
    }
  }

  /** `Objects.hash` of three elements: 31^3 + 31^2*x + 31*y + z, modulo 2^32. */
  lemma ObjectsHash3(x: int, y: int, z: int)
    ensures SameLow32(Fold31(1, [x, y, z]) as int, 29791 + 961 * x + 31 * y + z)
  {
    var xs := [x, y, z];
    Fold31ClosedForm(1, xs);
    assert xs[1..] == [y, z] && xs[1..][1..] == [z] && xs[1..][1..][1..] == [];
    assert Pow31(3) == 29791 && Pow31(2) == 961 && Pow31(1) == 31 && Pow31(0) == 1;
    assert Weighted([z]) == z;
    assert Weighted([y, z]) == y * 31 + z;
    assert Weighted(xs) == x * 961 + (y * 31 + z);
  }

  /** `Objects.hash` of one element: 31 + x in `int` arithmetic. */
  lemma ObjectsHash1(x: int)
    ensures Fold31(1, [x]) == Wrap(31 + x)
  {
    var xs := [x];
    assert xs[..0] == [];
    assert Fold31(1, xs) == Wrap(31 * Fold31(1, xs[..0]) as int + xs[0]);
  }

  /** `String.hashCode()`, one term per character. */
  function StringHash(s: string): int32
  {
    Fold31(0, seq(|s|, i requires 0 <= i < |s| => s[i] as int))
  }

  /** The hash `Objects.hash` uses for a nullable string element: 0 for null. */
  function NullableStringHash(s: Option<string>): int32
  {
    match s
    case None => 0
    case Some(t) => StringHash(t)
  }

  /** What string concatenation prints for a nullable string: the text `null` for null. */
  function NullableText(s: Option<string>): (t: string)
    ensures s.Some? ==> t == s.value
    ensures s.None? ==> t == "null"
  {
    match s
    case None => "null"
    case Some(v) => v
  }
}
