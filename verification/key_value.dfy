/** `KeyValue<K, V>`: the immutable key/value pair that Kafka Streams passes
    between processing stages, with its constructor, the `pair` factory,
    `toString`, `equals` and `hashCode`. The element types' own `equals`,
    `hashCode` and `toString` are foreign code and enter as function
    parameters; a null field is `None`. */
module KeyValues {
  import opened JavaLang

  /** The two `public final` fields. A datatype value cannot be updated in
      place, which is what `final` guarantees for the Java fields. */
  datatype KeyValue<K, V> = KeyValue(key: Option<K>, value: Option<V>)

  /** The argument of `equals(Object)`: either another `KeyValue` (the
      `instanceof` test succeeds) or an object of some other class. */
  datatype Other<K, V> = AKeyValue(kv: KeyValue<K, V>) | NotAKeyValue

  /** `new KeyValue<>(key, value)`: stores both arguments unchanged, with no
      validation; null is accepted for either. */
  function New<K, V>(key: Option<K>, value: Option<V>): (r: KeyValue<K, V>)
    ensures r.key == key && r.value == value
  {
    KeyValue(key, value)
  }

  /** `KeyValue.pair(key, value)`: the static factory. */
  function Pair<K, V>(key: Option<K>, value: Option<V>): (r: KeyValue<K, V>)
    ensures r == New(key, value)
    ensures r.key == key && r.value == value
  {
    New(key, value)
  }

  /** `a == null ? b == null : a.equals(b)`: the null-aware comparison of one
      field, as the class intends to apply it to each of the two fields. */
  function NullSafeEquals<T>(eq: (T, Option<T>) -> bool, a: Option<T>, b: Option<T>): bool
  {
    match a
    case None => b.None?
    case Some(x) => eq(x, b)
  }

  /** The field comparison of `equals` exactly as Java parses it. `&&` binds
      tighter than `?:`, and `?:` groups to the right, so the expression is
        `key == null ? otherKV.key == null
           : ((key.equals(otherKV.key) && value == null) ? otherKV.value == null
                                                         : value.equals(otherKV.value))`. */
  function FieldsEqualAsWritten<K, V>(self: KeyValue<K, V>, that: KeyValue<K, V>,
                                      eqK: (K, Option<K>) -> bool, eqV: (V, Option<V>) -> bool): Outcome<bool>
  {
    Conditional(IsNull(self.key),
      IsNull(that.key),
      Conditional(ConditionalAnd(InvokeEquals(eqK, self.key, that.key), IsNull(self.value)),
        IsNull(that.value),
        InvokeEquals(eqV, self.value, that.value)))
  }

  /** `equals(Object other)` as written. `sameRef` is the reference test
      `this == other`; when it holds, `other` is this very record. */
  function Equals<K, V>(self: KeyValue<K, V>, other: Other<K, V>, sameRef: bool,
                        eqK: (K, Option<K>) -> bool, eqV: (V, Option<V>) -> bool): (r: Outcome<bool>)
    requires sameRef ==> other == AKeyValue(self)
    // the identity shortcut answers before any field is looked at
    ensures sameRef ==> r == Returns(true)
    // an object of another class is never equal, and never causes a throw
    ensures other.NotAKeyValue? ==> r == Returns(false)
    // matching keys and matching values always give true
    ensures (other.AKeyValue? && NullSafeEquals(eqK, self.key, other.kv.key)
             && NullSafeEquals(eqV, self.value, other.kv.value)) ==> r == Returns(true)
    // with a null key only the other key decides; the values are never compared
    ensures !sameRef && other.AKeyValue? && self.key.None? ==> r == Returns(other.kv.key.None?)
    // with a non-null key and a non-null value only the values decide
    ensures !sameRef && other.AKeyValue? && self.key.Some? && self.value.Some?
            ==> r == Returns(eqV(self.value.value, other.kv.value))
    // with a non-null key equal to the other key and a null value only the other value's nullness decides
    ensures !sameRef && other.AKeyValue? && self.key.Some? && self.value.None?
            && eqK(self.key.value, other.kv.key)
            ==> r == Returns(other.kv.value.None?)
    // the call `value.equals(..)` on a null value throws exactly when the keys differ
    ensures r.ThrowsNullPointer? <==>
            !sameRef && other.AKeyValue? && self.key.Some? && self.value.None?
            && !eqK(self.key.value, other.kv.key)
  {
    if sameRef then Returns(true)
    else
      match other
      case AKeyValue(that) => FieldsEqualAsWritten(self, that, eqK, eqV)
      case NotAKeyValue => Returns(false)
  }

  /** The field comparison the class evidently intends: each field compared
      null-safely, the two results joined by one `&&`,
        `(key == null ? otherKV.key == null : key.equals(otherKV.key))
           && (value == null ? otherKV.value == null : value.equals(otherKV.value))`. */
  function FieldsEqualCorrected<K, V>(self: KeyValue<K, V>, that: KeyValue<K, V>,
                                      eqK: (K, Option<K>) -> bool, eqV: (V, Option<V>) -> bool): Outcome<bool>
  {
    ConditionalAnd(
      Conditional(IsNull(self.key), IsNull(that.key), InvokeEquals(eqK, self.key, that.key)),
      Conditional(IsNull(self.value), IsNull(that.value), InvokeEquals(eqV, self.value, that.value)))
  }

  /** `equals(Object other)` with the parenthesised comparison. */
  function EqualsCorrected<K, V>(self: KeyValue<K, V>, other: Other<K, V>, sameRef: bool,
                                 eqK: (K, Option<K>) -> bool, eqV: (V, Option<V>) -> bool): (r: Outcome<bool>)
    requires sameRef ==> other == AKeyValue(self)
    // never throws, whatever is null
    ensures r.Returns?
    ensures sameRef ==> r.value
    // apart from the identity shortcut: equal exactly when both fields match
    ensures !sameRef ==>
            (r.value <==> other.AKeyValue? && NullSafeEquals(eqK, self.key, other.kv.key)
                                           && NullSafeEquals(eqV, self.value, other.kv.value))
  {
    if sameRef then Returns(true)
    else
      match other
      case AKeyValue(that) => FieldsEqualCorrected(self, that, eqK, eqV)
      case NotAKeyValue => Returns(false)
  }

  /** `hashCode()`, that is `Objects.hash(key, value)`, in `int` arithmetic. */
  function HashCode<K, V>(self: KeyValue<K, V>, hashK: K -> Int32, hashV: V -> Int32): (h: Int32)
    ensures h == Wrap32(31 * (31 + HashOrZero(hashK, self.key)) + HashOrZero(hashV, self.value))
  {
    var hs := [HashOrZero(hashK, self.key), HashOrZero(hashV, self.value)];
    assert hs[..1][..0] == [];
    assert Poly(hs[..1]) == 31 + hs[0] as int;
    assert Poly(hs) == 31 * Poly(hs[..1]) + hs[1];
    ArraysHash(hs)
  }

  /** Whether the separator `", "` that `toString` puts between the fields
      starts at index `i` of `s`. */
  predicate SeparatorAt(s: string, i: int)
  {
    0 <= i && i + 2 <= |s| && s[i] == ',' && s[i + 1] == ' '
  }

  predicate NoSeparator(s: string)
  {
    forall i :: 0 <= i < |s| ==> !SeparatorAt(s, i)
  }

  /** The first index at or after `from` where a separator starts. */
  function FirstSeparator(s: string, from: nat): (r: Option<nat>)
    requires from <= |s|
    ensures r.Some? ==> from <= r.value && SeparatorAt(s, r.value)
                        && forall i :: from <= i < r.value ==> !SeparatorAt(s, i)
    ensures r.None? ==> forall i :: from <= i < |s| ==> !SeparatorAt(s, i)
    decreases |s| - from
  {
    if from + 2 > |s| then None
    else if SeparatorAt(s, from) then Some(from)
    else FirstSeparator(s, from + 1)
  }

  const Prefix: string := "KeyValue("

  /** Reads the two field renderings back out of a `toString` result, splitting
      at the first separator. */
  function SplitRendering(s: string): Option<(string, string)>
  {
    if |s| < |Prefix| + 1 || s[..|Prefix|] != Prefix || s[|s| - 1] != ')' then None
    else
      var middle := s[|Prefix|..|s| - 1];
      match FirstSeparator(middle, 0)
      case None => None
      case Some(i) => Some((middle[..i], middle[i + 2..]))
  }

  /** Splitting a rendering whose key part has no separator recovers both
      parts. */
  lemma {:induction false} SplitRenderingOf(k: string, v: string)
    requires NoSeparator(k)
    ensures SplitRendering(Prefix + k + ", " + v + ")") == Some((k, v))
  {
    var s := Prefix + k + ", " + v + ")";
    var middle := k + ", " + v;
    assert s[..|Prefix|] == Prefix;
    assert s[|Prefix|..|s| - 1] == middle;
    assert SeparatorAt(middle, |k|);
    forall i | 0 <= i < |k|
      ensures !SeparatorAt(middle, i)
    {
      if i + 1 < |k| {
        assert !SeparatorAt(k, i);
      }
    }
    assert FirstSeparator(middle, 0) == Some(|k|);
    assert middle[..|k|] == k;
    assert middle[|k| + 2..] == v;
  }

  /** `toString()`: `"KeyValue(" + key + ", " + value + ")"`, where string
      concatenation renders a null field as `"null"`. */
  function ToString<K, V>(self: KeyValue<K, V>, showK: K -> string, showV: V -> string): (s: string)
    ensures |s| > |Prefix| && s[..|Prefix|] == Prefix && s[|s| - 1] == ')'
    ensures |s| == |Prefix| + |StringValueOf(showK, self.key)| + 2 + |StringValueOf(showV, self.value)| + 1
    ensures self.key.None? ==> |s| > |Prefix| + 4 && s[|Prefix|..|Prefix| + 4] == "null"
    // the key's rendering, the separator and the value's rendering, in that order
    ensures s[|Prefix|..|Prefix| + |StringValueOf(showK, self.key)|] == StringValueOf(showK, self.key)
    ensures s[|Prefix| + |StringValueOf(showK, self.key)|..|Prefix| + |StringValueOf(showK, self.key)| + 2] == ", "
    ensures s[|Prefix| + |StringValueOf(showK, self.key)| + 2..|s| - 1] == StringValueOf(showV, self.value)
    // the renderings can be read back whenever the key's own rendering has no separator
    ensures NoSeparator(StringValueOf(showK, self.key)) ==>
            SplitRendering(s) == Some((StringValueOf(showK, self.key), StringValueOf(showV, self.value)))
  {
    var k := StringValueOf(showK, self.key);
    var v := StringValueOf(showV, self.value);
    var s := Prefix + k + ", " + v + ")";
    if NoSeparator(k) then SplitRenderingOf(k, v); s else s
  }
}
