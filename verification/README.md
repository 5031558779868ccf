# KeyValue: a verified model of Kafka Streams' key/value pair

`org.apache.kafka.streams.KeyValue<K, V>` is the immutable pair that Kafka
Streams hands from one processing stage to the next. It has two `public final`
fields, a constructor, the static factory `pair`, and overrides of `toString`,
`equals` and `hashCode`. This project models that class in Dafny and proves
properties of the model.

- `java_lang.dfy` (module `JavaLang`) holds the Java semantics the class relies on:
  - `null` as `Option`, and `NullPointerException` as an `Outcome`.
  - 32-bit `int` wrap-around (`Wrap32`).
  - How `?:` and `&&` evaluate (`Conditional`, `ConditionalAnd`).
  - A call of `equals` on a possibly-null receiver (`InvokeEquals`).
  - `String.valueOf`, and the array hash that `Objects.hash` delegates to (`ArraysHash`).
  - The general contract of `Object.equals`/`hashCode`, as predicates.
- `key_value.dfy` (module `KeyValues`) holds the record and its operations.
  - `Equals` is the comparison exactly as Java parses the unparenthesised expression on lines 56-57: `&&` binds tighter than `?:`, and `?:` groups to the right.
  - `EqualsCorrected` is the parenthesised comparison the class evidently means.
- `key_value_properties.dfy` (module `KeyValueProperties`) covers how the two comparisons relate. It proves exactly where they differ and which equality and hash laws each one keeps.

The element types' `equals`, `hashCode` and `toString` are foreign code. They
are function parameters (`eqK`, `hashK`, `showK`, ...). A lemma that needs them
to be reflexive, symmetric, transitive, or consistent with the hash says so in its
`requires`. Java's reference test `this == other` is the boolean parameter
`sameRef`. When it is true, `other` is the record itself. `instanceof KeyValue`
is the variant tag of `Other`.

As written, `equals` is not "keys equal and values equal", and it can throw.
It breaks the symmetry and transitivity the `Object.equals` contract asks for.
It also breaks the rule that equal objects get equal `hashCode`s, measured
against the class's own `hashCode` on line 65. See Findings.

## Model

| member | source | states |
|---|---|---|
| KeyValues.New | streams/src/main/java/org/apache/kafka/streams/KeyValue.java:32-38 | the constructor stores key and value unchanged, nulls included; the fields of the immutable datatype can never change afterwards |
| KeyValues.Pair | streams/src/main/java/org/apache/kafka/streams/KeyValue.java:40-42 | `pair(k, v)` is the same record as `new KeyValue(k, v)`, with exactly those fields |
| KeyValues.ToString | streams/src/main/java/org/apache/kafka/streams/KeyValue.java:44-46 | the rendering is `KeyValue(`, the key's rendering, `, `, the value's rendering and `)`, in that order, with a null field shown as `null`; when the key's rendering has no `", "`, both field renderings can be read back from it |
| KeyValues.SplitRenderingOf | streams/src/main/java/org/apache/kafka/streams/KeyValue.java:45 | splitting `KeyValue(k, v)` at the first `", "` recovers `k` and `v` whenever `k` contains no `", "` |
| KeyValues.Equals | streams/src/main/java/org/apache/kafka/streams/KeyValue.java:48-61 | identical references are equal before any field is read; an object of another class is unequal; matching keys plus matching values give true; with a null key only the other key decides; with a non-null key and value only the values decide; a throw happens exactly when the key is non-null, the value null and the keys unequal |
| KeyValues.EqualsCorrected | streams/src/main/java/org/apache/kafka/streams/KeyValue.java:56-57 | the parenthesised comparison never throws and, apart from the identity shortcut, is true exactly when the other object is a KeyValue whose key and value both match null-safely |
| KeyValues.HashCode | streams/src/main/java/org/apache/kafka/streams/KeyValue.java:63-66 | `hashCode` is `31 * (31 + h(key)) + h(value)` truncated to 32 bits, a null field contributing 0; so records whose fields hash alike hash alike |
| JavaLang.ArraysHash | streams/src/main/java/org/apache/kafka/streams/KeyValue.java:65 | the `Objects.hash` fold, which truncates to `int` after every step, equals the exact hash polynomial truncated once at the end |
| KeyValueProperties.AsWrittenAcceptsCorrectlyEqual | streams/src/main/java/org/apache/kafka/streams/KeyValue.java:56-57 | every pair of records the parenthesised comparison calls equal is also equal as written |
| KeyValueProperties.AsWrittenDiffersExactly | streams/src/main/java/org/apache/kafka/streams/KeyValue.java:56-57 | the two comparisons differ exactly when both keys are null and the values do not match, or the key is non-null and unequal to the other key while the value is null or equal to the other value |
| KeyValueProperties.AsWrittenAgreesOnMatchingKey | streams/src/main/java/org/apache/kafka/streams/KeyValue.java:56-57 | with a non-null key equal to the other key, both comparisons answer whether the values match |
| KeyValueProperties.NullKeyIgnoresValues | streams/src/main/java/org/apache/kafka/streams/KeyValue.java:56 | two records with null keys are equal as written whatever their values, while the corrected comparison still compares the values |
| KeyValueProperties.DifferentKeysEqualValues | streams/src/main/java/org/apache/kafka/streams/KeyValue.java:56-57 | with non-null values that are equal, unequal keys still give true as written, and false when corrected |
| KeyValueProperties.AsWrittenBreaksHashContract | streams/src/main/java/org/apache/kafka/streams/KeyValue.java:56-65 | `KeyValue(1, 7)` equals `KeyValue(2, 7)` as written, yet their hash codes are 999 and 1030 |
| KeyValueProperties.NullValueThrows | streams/src/main/java/org/apache/kafka/streams/KeyValue.java:57 | a non-null key unequal to the other key next to a null value throws `NullPointerException` as written, and gives false when corrected |
| KeyValueProperties.AsWrittenNotSymmetric | streams/src/main/java/org/apache/kafka/streams/KeyValue.java:56-57 | for element types that keep the `equals` contract, `(null, v)` is not equal to `(k, v)`, but `(k, v)` is equal to `(null, v)` |
| KeyValueProperties.AsWrittenNotTransitive | streams/src/main/java/org/apache/kafka/streams/KeyValue.java:56-57 | `(k, v)` equals `(null, v)`, which equals `(null, w)`, yet `(k, v)` does not equal `(null, w)` |
| KeyValueProperties.EqualsReflexive | streams/src/main/java/org/apache/kafka/streams/KeyValue.java:48-61 | a structurally identical copy is equal under both comparisons when the element types' `equals` are reflexive |
| KeyValueProperties.CorrectedSymmetric | streams/src/main/java/org/apache/kafka/streams/KeyValue.java:56-57 | the corrected comparison is symmetric when the element `equals` are symmetric and never equal null |
| KeyValueProperties.CorrectedTransitive | streams/src/main/java/org/apache/kafka/streams/KeyValue.java:56-57 | the corrected comparison is transitive when the element `equals` are transitive and never equal null |
| KeyValueProperties.CorrectedHashConsistent | streams/src/main/java/org/apache/kafka/streams/KeyValue.java:56-65 | records the corrected comparison calls equal have equal `hashCode`s when each element hash agrees with its `equals` |
| KeyValueProperties.ToStringExamples | streams/src/main/java/org/apache/kafka/streams/KeyValue.java:45 | `pair("1", "x")` renders as `KeyValue(1, x)`, and a null key as `KeyValue(null, x)` |
| KeyValueProperties.ToStringAmbiguous | streams/src/main/java/org/apache/kafka/streams/KeyValue.java:45 | without the condition on the key's rendering, two different records can render the same |

## Left out

- The element types' own `equals`, `hashCode` and `toString` are left out. They are foreign code, modelled as total function parameters, so an exception they might throw is not modelled.
- Java reference identity is left out beyond the `sameRef` flag. Its `requires sameRef ==> other == AKeyValue(self)` states what identity implies.
- Generic erasure is left out. `other` may in Java be a `KeyValue` with different type arguments. Here it has the same `K` and `V`, and the `instanceof` test and the unchecked cast are a variant tag.
- The `Object[]` that the varargs call `Objects.hash(key, value)` allocates is left out. Only the hash it computes is modelled.
- The rest of Kafka Streams is outside this model, along with thread safety. That covers topologies, serdes and state stores. The class has no mutable state.

## Findings

| source | as written | input that shows it | evidently intended | confidence | as-written member | corrected member |
|---|---|---|---|---|---|---|
| streams/src/main/java/org/apache/kafka/streams/KeyValue.java:56-57 | a non-null key with a non-null value compares only the values | `KeyValue(1, 7).equals(KeyValue(2, 7))` is true, but the hash codes are 999 and 1030 | keys equal and values equal; equal records hash alike | high; not executed | KeyValueProperties.AsWrittenBreaksHashContract | KeyValueProperties.CorrectedHashConsistent |
| streams/src/main/java/org/apache/kafka/streams/KeyValue.java:56 | a null key compares only the other key | `KeyValue(null, "a").equals(KeyValue(null, "b"))` is true | the values are compared too | high; not executed | KeyValueProperties.NullKeyIgnoresValues | KeyValues.EqualsCorrected |
| streams/src/main/java/org/apache/kafka/streams/KeyValue.java:57 | `value.equals` is called on a null value when the keys differ | `KeyValue("k", null).equals(KeyValue("j", "x"))` throws `NullPointerException` | returns false | high; not executed | KeyValueProperties.NullValueThrows | KeyValues.EqualsCorrected |
| streams/src/main/java/org/apache/kafka/streams/KeyValue.java:56-57 | `equals` is not symmetric | `KeyValue(null, 7).equals(KeyValue(1, 7))` is false, but `KeyValue(1, 7).equals(KeyValue(null, 7))` is true | symmetric | high; not executed | KeyValueProperties.AsWrittenNotSymmetric | KeyValueProperties.CorrectedSymmetric |
| streams/src/main/java/org/apache/kafka/streams/KeyValue.java:56-57 | `equals` is not transitive | `KeyValue(1, 7)` equals `KeyValue(null, 7)`, which equals `KeyValue(null, 8)`, but `KeyValue(1, 7)` does not equal `KeyValue(null, 8)` | transitive | high; not executed | KeyValueProperties.AsWrittenNotTransitive | KeyValueProperties.CorrectedTransitive |
