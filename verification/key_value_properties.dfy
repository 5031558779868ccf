/** Properties of `KeyValue.equals` as Java parses it, set against the
    parenthesised comparison the class evidently intends: where the two agree,
    where they differ, and which of the laws of `Object.equals` and
    `Object.hashCode` each of them keeps. */
module KeyValueProperties {
  import opened JavaLang
  import opened KeyValues

  /** `java.lang.Integer`'s `equals` and `hashCode` over the values the
      examples below use. */
  function IntEquals(x: Int32, o: Option<Int32>): bool
  {
    o == Some(x)
  }

  function IntHash(x: Int32): Int32
  {
    x
  }

  /** `java.lang.String`'s `equals` and `toString`. */
  function StringEquals(x: string, o: Option<string>): bool
  {
    o == Some(x)
  }

  function StringShow(x: string): string
  {
    x
  }

  /** Everything the corrected comparison calls equal, the comparison as
      written calls equal too: the literal parse only ever adds equalities
      (or throws where the corrected one says false). */
  lemma AsWrittenAcceptsCorrectlyEqual<K, V>(self: KeyValue<K, V>, other: Other<K, V>, sameRef: bool,
                                             eqK: (K, Option<K>) -> bool, eqV: (V, Option<V>) -> bool)
    requires sameRef ==> other == AKeyValue(self)
    ensures EqualsCorrected(self, other, sameRef, eqK, eqV) == Returns(true)
            ==> Equals(self, other, sameRef, eqK, eqV) == Returns(true)
  {
  }

  /** Exactly where the two comparisons disagree: a null key whose partner
      key is null too while the values do not match (as written says true), or
      a non-null key that does not equal the other key while the value is
      null (as written throws) or equals the other value (as written says
      true). */
  lemma AsWrittenDiffersExactly<K, V>(self: KeyValue<K, V>, other: Other<K, V>, sameRef: bool,
                                      eqK: (K, Option<K>) -> bool, eqV: (V, Option<V>) -> bool)
    requires sameRef ==> other == AKeyValue(self)
    ensures Equals(self, other, sameRef, eqK, eqV) != EqualsCorrected(self, other, sameRef, eqK, eqV)
            <==>
            !sameRef && other.AKeyValue? &&
            ( (self.key.None? && other.kv.key.None? && !NullSafeEquals(eqV, self.value, other.kv.value))
              || (self.key.Some? && !eqK(self.key.value, other.kv.key)
                  && (self.value.None? || eqV(self.value.value, other.kv.value))))
  {
  }

  /** With a non-null key that equals the other key, the literal parse gives
      the intended answer. */
  lemma AsWrittenAgreesOnMatchingKey<K, V>(self: KeyValue<K, V>, that: KeyValue<K, V>,
                                           eqK: (K, Option<K>) -> bool, eqV: (V, Option<V>) -> bool)
    requires self.key.Some? && eqK(self.key.value, that.key)
    ensures Equals(self, AKeyValue(that), false, eqK, eqV)
            == EqualsCorrected(self, AKeyValue(that), false, eqK, eqV)
            == Returns(NullSafeEquals(eqV, self.value, that.value))
  {
  }

  /** Records with null keys are equal as written whatever their values;
      the corrected comparison still looks at the values. */
  lemma NullKeyIgnoresValues<K, V>(v1: Option<V>, v2: Option<V>,
                                   eqK: (K, Option<K>) -> bool, eqV: (V, Option<V>) -> bool)
    ensures Equals(KeyValue(None, v1), AKeyValue(KeyValue(None, v2)), false, eqK, eqV) == Returns(true)
    ensures EqualsCorrected(KeyValue(None, v1), AKeyValue(KeyValue(None, v2)), false, eqK, eqV)
            == Returns(NullSafeEquals(eqV, v1, v2))
  {
  }

  /** With non-null values, different keys do not stop the records being
      equal as written. */
  lemma DifferentKeysEqualValues<K, V>(k1: K, k2: Option<K>, v1: V, v2: Option<V>,
                                       eqK: (K, Option<K>) -> bool, eqV: (V, Option<V>) -> bool)
    requires !eqK(k1, k2) && eqV(v1, v2)
    ensures Equals(KeyValue(Some(k1), Some(v1)), AKeyValue(KeyValue(k2, v2)), false, eqK, eqV) == Returns(true)
    ensures EqualsCorrected(KeyValue(Some(k1), Some(v1)), AKeyValue(KeyValue(k2, v2)), false, eqK, eqV)
            == Returns(false)
  {
  }

  /** `KeyValue(1, 7).equals(KeyValue(2, 7))` is true as written, yet the two
      records hash differently: the literal parse breaks the rule that equal
      objects have equal hash codes, even for well-behaved `Integer` elements. */
  lemma AsWrittenBreaksHashContract()
    ensures Equals(Pair<Int32, Int32>(Some(1), Some(7)), AKeyValue(Pair(Some(2), Some(7))), false, IntEquals, IntEquals)
            == Returns(true)
    ensures HashCode(Pair<Int32, Int32>(Some(1), Some(7)), IntHash, IntHash) == 999
    ensures HashCode(Pair<Int32, Int32>(Some(2), Some(7)), IntHash, IntHash) == 1030
  {
  }

  /** A non-null key that differs from the other key, next to a null value,
      makes `equals` call `equals` on that null value. */
  lemma NullValueThrows<K, V>(k1: K, k2: Option<K>, v2: Option<V>,
                              eqK: (K, Option<K>) -> bool, eqV: (V, Option<V>) -> bool)
    requires !eqK(k1, k2)
    ensures Equals(KeyValue(Some(k1), None), AKeyValue(KeyValue(k2, v2)), false, eqK, eqV) == ThrowsNullPointer
    ensures EqualsCorrected(KeyValue(Some(k1), None), AKeyValue(KeyValue(k2, v2)), false, eqK, eqV)
            == Returns(false)
  {
  }

  /** As written, `equals` is not symmetric even for element types that keep
      the `Object.equals` contract: `(null, v)` is not equal to `(k, v)`, but
      `(k, v)` is equal to `(null, v)`. */
  lemma AsWrittenNotSymmetric<K, V>(k: K, v: V, eqK: (K, Option<K>) -> bool, eqV: (V, Option<V>) -> bool)
    requires eqV(v, Some(v))
    ensures Equals(KeyValue(None, Some(v)), AKeyValue(KeyValue(Some(k), Some(v))), false, eqK, eqV) == Returns(false)
    ensures Equals(KeyValue(Some(k), Some(v)), AKeyValue(KeyValue(None, Some(v))), false, eqK, eqV) == Returns(true)
  {
  }

  /** As written, `equals` is not transitive: `(k, v)` equals `(null, v)`,
      which equals `(null, w)`, yet `(k, v)` does not equal `(null, w)`. */
  lemma AsWrittenNotTransitive<K, V>(k: K, v: V, w: V, eqK: (K, Option<K>) -> bool, eqV: (V, Option<V>) -> bool)
    requires eqV(v, Some(v)) && !eqV(v, Some(w))
    ensures Equals(KeyValue(Some(k), Some(v)), AKeyValue(KeyValue(None, Some(v))), false, eqK, eqV) == Returns(true)
    ensures Equals(KeyValue(None, Some(v)), AKeyValue(KeyValue(None, Some(w))), false, eqK, eqV) == Returns(true)
    ensures Equals(KeyValue(Some(k), Some(v)), AKeyValue(KeyValue(None, Some(w))), false, eqK, eqV) == Returns(false)
  {
  }

  /** Both comparisons are reflexive for a structurally equal copy (a
      different reference), provided the element types' `equals` are. */
  lemma EqualsReflexive<K(!new), V(!new)>(a: KeyValue<K, V>, eqK: (K, Option<K>) -> bool, eqV: (V, Option<V>) -> bool)
    requires ReflexiveEquals(eqK) && ReflexiveEquals(eqV)
    ensures Equals(a, AKeyValue(a), false, eqK, eqV) == Returns(true)
    ensures EqualsCorrected(a, AKeyValue(a), false, eqK, eqV) == Returns(true)
  {
  }

  /** The corrected comparison is symmetric when the element types' `equals`
      are symmetric and never equal null. */
  lemma CorrectedSymmetric<K(!new), V(!new)>(a: KeyValue<K, V>, b: KeyValue<K, V>,
                                             eqK: (K, Option<K>) -> bool, eqV: (V, Option<V>) -> bool)
    requires SymmetricEquals(eqK) && NullUnequal(eqK)
    requires SymmetricEquals(eqV) && NullUnequal(eqV)
    ensures EqualsCorrected(a, AKeyValue(b), false, eqK, eqV) == EqualsCorrected(b, AKeyValue(a), false, eqK, eqV)
  {
  }

  /** The corrected comparison is transitive when the element types' `equals`
      are transitive and never equal null. */
  lemma CorrectedTransitive<K(!new), V(!new)>(a: KeyValue<K, V>, b: KeyValue<K, V>, c: KeyValue<K, V>,
                                              eqK: (K, Option<K>) -> bool, eqV: (V, Option<V>) -> bool)
    requires TransitiveEquals(eqK) && NullUnequal(eqK)
    requires TransitiveEquals(eqV) && NullUnequal(eqV)
    requires EqualsCorrected(a, AKeyValue(b), false, eqK, eqV) == Returns(true)
    requires EqualsCorrected(b, AKeyValue(c), false, eqK, eqV) == Returns(true)
    ensures EqualsCorrected(a, AKeyValue(c), false, eqK, eqV) == Returns(true)
  {
  }

  /** Records the corrected comparison calls equal have equal `hashCode`s,
      provided each element type's `hashCode` agrees with its `equals` and no
      element equals null. */
  lemma CorrectedHashConsistent<K(!new), V(!new)>(a: KeyValue<K, V>, other: Other<K, V>, sameRef: bool,
                                                  eqK: (K, Option<K>) -> bool, hashK: K -> Int32,
                                                  eqV: (V, Option<V>) -> bool, hashV: V -> Int32)
    requires sameRef ==> other == AKeyValue(a)
    requires HashConsistent(eqK, hashK) && NullUnequal(eqK)
    requires HashConsistent(eqV, hashV) && NullUnequal(eqV)
    requires EqualsCorrected(a, other, sameRef, eqK, eqV) == Returns(true)
    ensures other.AKeyValue? && HashCode(a, hashK, hashV) == HashCode(other.kv, hashK, hashV)
  {
  }

  /** `pair` and `toString` on concrete fields, and the `"null"` rendering. */
  lemma ToStringExamples()
    ensures ToString(Pair(Some("1"), Some("x")), StringShow, StringShow) == "KeyValue(1, x)"
    ensures ToString(Pair(None, Some("x")), StringShow, StringShow) == "KeyValue(null, x)"
  {
  }

  /** Without the side condition on the key's rendering, `toString` does not
      determine the fields: two different records render identically. */
  lemma ToStringAmbiguous()
    ensures Pair(Some("a, b"), Some("c")) != Pair(Some("a"), Some("b, c"))
    ensures ToString(Pair(Some("a, b"), Some("c")), StringShow, StringShow)
            == ToString(Pair(Some("a"), Some("b, c")), StringShow, StringShow)
  {
  }
}
