/** The pieces of Java semantics that `KeyValue` relies on: null references,
    `NullPointerException`, 32-bit `int` arithmetic, the evaluation rules of the
    conditional operator `?:` and of `&&`, `String.valueOf`, the array hash that
    `Objects.hash` delegates to, and the general contract of `Object.equals` and
    `Object.hashCode` that element types are expected (but not forced) to keep. */
module JavaLang {

  /** A Java reference of static type `T`: `None` is `null`. */
  datatype Option<+T> = None | Some(value: T)

  /** The outcome of evaluating a Java expression that may throw. The only
      exception the modelled code can raise is `NullPointerException`. */
  datatype Outcome<+T> = Returns(value: T) | ThrowsNullPointer

  const TwoTo32: int := 0x1_0000_0000
  const MinInt: int := -0x8000_0000
  const MaxInt: int := 0x7fff_ffff

  /** Java's `int`. */
  type Int32 = x: int | MinInt <= x <= MaxInt

  /** The two's-complement truncation Java applies to every `int` result:
      the unique `int` congruent to `x` modulo 2^32. */
  function Wrap32(x: int): (r: Int32)
    ensures (x - r) % TwoTo32 == 0
    ensures MinInt <= x <= MaxInt ==> r == x
  {
    (x - MinInt) % TwoTo32 + MinInt
  }

  /** Adding a multiple of 2^32 does not change the truncated value. */
  lemma WrapShift(y: int, k: int)
    ensures Wrap32(y + TwoTo32 * k) == Wrap32(y)
  {
    assert (y - MinInt + TwoTo32 * k) % TwoTo32 == (y - MinInt) % TwoTo32;
  }

  /** Truncating an intermediate result of `31 * a + b` does not change the
      truncated final result. */
  lemma WrapStep(a: int, b: int)
    ensures Wrap32(31 * Wrap32(a) + b) == Wrap32(31 * a + b)
  {
    var q := (a - MinInt) / TwoTo32;
    assert Wrap32(a) == a - TwoTo32 * q;
    assert 31 * Wrap32(a) + b == (31 * a + b) + TwoTo32 * (-31 * q);
    WrapShift(31 * a + b, -31 * q);
  }

  /** The hash polynomial of a sequence of element hashes in unbounded
      integers: 1 folded with `31 * acc + h` over the elements. */
  function Poly(hs: seq<Int32>): int
  {
    if |hs| == 0 then 1 else 31 * Poly(hs[..|hs| - 1]) + hs[|hs| - 1]
  }

  /** `Arrays.hashCode(Object[])`, which `Objects.hash` calls: the result starts
      at 1 and each element hash is folded in as `31 * result + h` in `int`
      arithmetic, truncating after every step. The contract says the result is
      the hash polynomial truncated once, at the end. */
  function ArraysHash(hs: seq<Int32>): (r: Int32)
    ensures r == Wrap32(Poly(hs))
  {
    if |hs| == 0 then 1
    else
      var prefix := hs[..|hs| - 1];
      var acc := ArraysHash(prefix);
      WrapStep(Poly(prefix), hs[|hs| - 1]);
      Wrap32(31 * acc + hs[|hs| - 1])
  }

  /** The contribution of one element to `Arrays.hashCode`: 0 for null,
      otherwise the element's own `hashCode()`. */
  function HashOrZero<T>(hash: T -> Int32, o: Option<T>): Int32
  {
    match o
    case None => 0
    case Some(x) => hash(x)
  }

  /** `String.valueOf(Object)`, which string concatenation uses: `"null"` for
      null, otherwise the object's own `toString()`. */
  function StringValueOf<T>(show: T -> string, o: Option<T>): string
  {
    match o
    case None => "null"
    case Some(x) => show(x)
  }

  /** `o == null`, which never throws. */
  function IsNull<T>(o: Option<T>): Outcome<bool>
  {
    Returns(o.None?)
  }

  /** `receiver.equals(arg)`: a call on a null receiver throws
      `NullPointerException`, otherwise the receiver's `equals` decides. The
      argument is an `Option` because `equals` accepts null. */
  function InvokeEquals<T>(eq: (T, Option<T>) -> bool, receiver: Option<T>, arg: Option<T>): (r: Outcome<bool>)
    ensures r.ThrowsNullPointer? <==> receiver.None?
    ensures receiver.Some? ==> r == Returns(eq(receiver.value, arg))
  {
    match receiver
    case None => ThrowsNullPointer
    case Some(x) => Returns(eq(x, arg))
  }

  /** `c ? t : e`. The operands are given as outcomes already evaluated: every
      operand in the modelled code is free of side effects other than throwing,
      so evaluating the branch that is not taken cannot change the result. */
  function Conditional<T>(c: Outcome<bool>, t: Outcome<T>, e: Outcome<T>): Outcome<T>
  {
    match c
    case ThrowsNullPointer => ThrowsNullPointer
    case Returns(b) => if b then t else e
  }

  /** `a && b`: when `a` is false, `b` is not evaluated, so whatever `b` would
      have thrown does not happen. */
  function ConditionalAnd(a: Outcome<bool>, b: Outcome<bool>): Outcome<bool>
  {
    match a
    case ThrowsNullPointer => ThrowsNullPointer
    case Returns(x) => if x then b else Returns(false)
  }

  /** The general contract of `Object.equals`, stated for an element type whose
      `equals` is given as `eq`. Nothing in Java enforces it. */
  ghost predicate ReflexiveEquals<T(!new)>(eq: (T, Option<T>) -> bool)
  {
    forall x :: eq(x, Some(x))
  }

  ghost predicate SymmetricEquals<T(!new)>(eq: (T, Option<T>) -> bool)
  {
    forall x, y :: eq(x, Some(y)) == eq(y, Some(x))
  }

  ghost predicate TransitiveEquals<T(!new)>(eq: (T, Option<T>) -> bool)
  {
    forall x, y, z :: eq(x, Some(y)) && eq(y, Some(z)) ==> eq(x, Some(z))
  }

  /** `x.equals(null)` is false for every non-null `x`. */
  ghost predicate NullUnequal<T(!new)>(eq: (T, Option<T>) -> bool)
  {
    forall x :: !eq(x, None)
  }

  /** Equal objects have equal hash codes. */
  ghost predicate HashConsistent<T(!new)>(eq: (T, Option<T>) -> bool, hash: T -> Int32)
  {
    forall x, y :: eq(x, Some(y)) ==> hash(x) == hash(y)
  }
}
