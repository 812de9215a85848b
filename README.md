# Basic-type re-resolution and correlated plural table groups

A Dafny model of two decision engines of an object-relational mapper:

- **Basic-type re-resolution rules.** A basic type pairs a JDBC-type descriptor with a
  Java-type descriptor. Given contextual indicators (LOB flag, nationalized flag,
  requested temporal precision) and the domain Java-type descriptor, some types
  re-resolve to a more specific type:
  - `BinaryType` (VARBINARY / `byte[]`) escalates to a BLOB-backed type from the
    basic-type registry when the attribute is a LOB.
  - `CharacterArrayClobType` (CLOB / `Character[]`) goes through the registries
    when the domain class is the primitive `char[]`, choosing NCLOB or CLOB by the
    nationalized flag. Otherwise it returns the NCLOB variant singleton or itself.
  - `TimestampType` narrows to the DATE or TIME singletons by temporal precision,
    and throws for any other precision.
  - The version strategies of `BinaryType` (seed is null, next is the identity)
    and `TimestampType` (seed is the clock reading, next re-seeds).
- **`CorrelatedPluralTableGroup`.** This is the table group of a subquery over a
  collection-valued attribute. It has two write-once slots, one for the index table
  group and one for the element table group. It resolves a table reference by asking,
  in order, its own correlated lookup, then the index group, then the element group.
  Each group is asked only when the requested navigable path is null or lies under
  that group's path.

Files:
- `wrappers.dfy`: `Option` (a nullable reference) and `Result` (a value or a thrown exception).
- `descriptors.dfy`: the shared vocabulary. It holds the `java.sql.Types` codes, the Java
  classes, the descriptors, the `BasicType` tags, the registries of a type configuration,
  the indicators and the temporal precisions.
- `binary_type.dfy`, `timestamp_type.dfy`, `character_array_clob_type.dfy`: one module per type class.
- `correlated_plural_table_group.dfy`: the `CorrelatedPluralTableGroup` class and its lookup.

The type rules are pure functions. The registries are function-valued fields of a
`TypeConfiguration`:
- the JDBC registry maps a type code to a descriptor;
- the Java-type registry maps a class to a descriptor;
- `BasicTypeRegistry.resolve` maps a (Java descriptor, JDBC descriptor, key) triple to a
  basic type.

Their bodies are not part of this model, so every property holds for all registries.
The table group is a class whose two slots are `Option` fields. The register methods
assign those fields. The getters and the lookup are functions that read them. The
inherited correlated lookup, `TableGroup.getTableReference` and `NavigablePath.isParent`
are passed in as a `Collaborators` value.

## Model

| member | source | states |
|---|---|---|
| `BinaryType.ConstructorDescriptors` | hibernate-core/src/main/java/org/hibernate/type/BinaryType.java:40-42 | The type pairs the VARBINARY JDBC descriptor with the `byte[]` Java descriptor. |
| `BinaryType.RegistrationKeys` | hibernate-core/src/main/java/org/hibernate/type/BinaryType.java:36-47 | The keys are exactly `["binary", "byte[]", "[B"]` in that order. The first is the name, and all three are distinct. |
| `BinaryType.Seed` | hibernate-core/src/main/java/org/hibernate/type/BinaryType.java:56-64 | The initial version is null for every session. |
| `BinaryType.Next` | hibernate-core/src/main/java/org/hibernate/type/BinaryType.java:74-78 | The next version is the current one, whatever the session. |
| `BinaryType.ApplyNextKeepsStoredVersion` | hibernate-core/src/main/java/org/hibernate/type/BinaryType.java:74-78 | Any number of updates leave the stored (database-generated) version unchanged, so `next` is idempotent. |
| `BinaryType.SeededVersionStaysNull` | hibernate-core/src/main/java/org/hibernate/type/BinaryType.java:56-78 | A row seeded on insert and then updated any number of times still has a null version on the engine side. |
| `BinaryType.ResolveIndicatedType` | hibernate-core/src/main/java/org/hibernate/type/BinaryType.java:92-104 | Without the LOB flag the result is the type itself. With it, the result is the registry's `resolve` of the domain descriptor, the registry's BLOB descriptor and the key `"binary"`. |
| `BinaryType.NonLobResolutionIsSelf` | hibernate-core/src/main/java/org/hibernate/type/BinaryType.java:95-97 | Without the LOB flag the result is the type itself, whatever the domain descriptor or the registries. |
| `BinaryType.LobResolutionAsksOnlyForBlob` | hibernate-core/src/main/java/org/hibernate/type/BinaryType.java:99-103 | The LOB branch asks the JDBC registry only for the BLOB code. Any registry that agrees on BLOB gives the same result, even if it differs on VARBINARY. |
| `TimestampType.ConstructorDescriptors` | hibernate-core/src/main/java/org/hibernate/type/TimestampType.java:34-36 | The type pairs the TIMESTAMP JDBC descriptor with the `java.util.Date` Java descriptor. |
| `TimestampType.RegistrationKeys` | hibernate-core/src/main/java/org/hibernate/type/TimestampType.java:38-46 | The keys are exactly `["timestamp", "java.sql.Timestamp", "java.util.Date"]`, all distinct. |
| `TimestampType.Seed` | hibernate-core/src/main/java/org/hibernate/type/TimestampType.java:53-56 | The initial version is a timestamp equal to the clock reading at the call. |
| `TimestampType.Next` | hibernate-core/src/main/java/org/hibernate/type/TimestampType.java:48-51 | The next version equals a fresh seed with the same clock reading. It does not depend on the current version, null included. |
| `TimestampType.ApplyNextIsLastReading` | hibernate-core/src/main/java/org/hibernate/type/TimestampType.java:48-56 | After one or more updates the version is the clock reading of the last update. The earlier version and readings are forgotten. |
| `TimestampType.UnsupportedPrecisionMessageNamesPrecision` | hibernate-core/src/main/java/org/hibernate/type/TimestampType.java:83 | The exception message contains the precision's name at a fixed offset, so distinct precisions give distinct messages. |
| `TimestampType.ResolveTemporalPrecision` | hibernate-core/src/main/java/org/hibernate/type/TimestampType.java:68-84 | TIMESTAMP gives the type itself, DATE the date singleton and TIME the time singleton. It succeeds exactly for those three. Any other precision gives a `QueryException` naming it, and a null precision fails in the switch. There is no default type. |
| `CharacterArrayClobType.ConstructorDescriptors` | hibernate-core/src/main/java/org/hibernate/type/CharacterArrayClobType.java:32-34 | The default instance pairs the default CLOB descriptor with the `Character[]` Java descriptor. |
| `CharacterArrayClobType.ResolveIndicatedType` | hibernate-core/src/main/java/org/hibernate/type/CharacterArrayClobType.java:41-61 | For a `char[]` domain the result is the registry's `resolve` of the Java registry's `char[]` descriptor, the NCLOB or CLOB descriptor (nationalized or not) and a null key. For any other or a null domain it is the NCLOB singleton when nationalized and the type itself otherwise. |
| `CharacterArrayClobType.ResolutionIgnoresLobAndPrecision` | hibernate-core/src/main/java/org/hibernate/type/CharacterArrayClobType.java:42-61 | The result does not depend on the LOB flag or the temporal precision. |
| `CharacterArrayClobType.SingletonUnlessPrimitiveCharArray` | hibernate-core/src/main/java/org/hibernate/type/CharacterArrayClobType.java:60 | Outside the `char[]` case the result is one of the two singletons and does not depend on the type configuration. |
| `CharacterArrayClobType.PrimitiveCharArrayAsksOnlyForChosenCode` | hibernate-core/src/main/java/org/hibernate/type/CharacterArrayClobType.java:45-57 | In the `char[]` case the JDBC registry is asked only for NCLOB (nationalized) or CLOB (not nationalized). A registry that agrees on that code gives the same result. |
| `TableGroups.CorrelatedPluralTableGroup.constructor` | hibernate-core/src/main/java/org/hibernate/sql/ast/tree/from/CorrelatedPluralTableGroup.java:25-50 | A new group has no index and no element group, so both getters return null. |
| `TableGroups.CorrelatedPluralTableGroup.RegisterIndexTableGroup` | hibernate-core/src/main/java/org/hibernate/sql/ast/tree/from/CorrelatedPluralTableGroup.java:52-55 | Requires the index slot to be empty. Afterwards the index getter returns the join's joined group, and the element slot is unchanged. |
| `TableGroups.CorrelatedPluralTableGroup.RegisterElementTableGroup` | hibernate-core/src/main/java/org/hibernate/sql/ast/tree/from/CorrelatedPluralTableGroup.java:57-60 | Requires the element slot to be empty. Afterwards the element getter returns the joined group, and the index slot is unchanged. |
| `TableGroups.CorrelatedPluralTableGroup.TableReferenceInternal` | hibernate-core/src/main/java/org/hibernate/sql/ast/tree/from/CorrelatedPluralTableGroup.java:62-100 | A reference from the correlated lookup wins. Otherwise the index group's reference wins when the index slot is admitted. Any result comes from the correlated lookup or an admitted group, with the request unchanged. The result is null exactly when every consulted lookup finds nothing. |
| `TableGroups.FirstFoundIsEarliestHit` | hibernate-core/src/main/java/org/hibernate/sql/ast/tree/from/CorrelatedPluralTableGroup.java:68-99 | The reference definition of the lookup order. The first hit of an ordered list of lookups is an entry of the list, and every entry before it is absent. It is absent exactly when all entries are. |
| `TableGroups.TableReferenceInternalIsFirstCandidate` | hibernate-core/src/main/java/org/hibernate/sql/ast/tree/from/CorrelatedPluralTableGroup.java:62-100 | The lookup is the first hit among the correlated lookup, the admitted index group and the admitted element group, in that order. |
| `TableGroups.InadmissibleGroupsNotConsulted` | hibernate-core/src/main/java/org/hibernate/sql/ast/tree/from/CorrelatedPluralTableGroup.java:77-98 | A group that is unregistered or outside the path's ancestry is never consulted. Changing its lookup does not change the result. |
| `TableGroups.ElementGroupReachedAfterIndex` | hibernate-core/src/main/java/org/hibernate/sql/ast/tree/from/CorrelatedPluralTableGroup.java:84-98 | When the correlated lookup finds nothing and the index group is skipped or finds nothing, an admitted element group's answer is the result (null included). |

## Left out

- The bodies of `BasicTypeRegistry.resolve`, `JdbcTypeDescriptorRegistry.getDescriptor` and the Java-type registry are not part of this model, so they are arbitrary functions. Nothing is claimed about memoisation, uniqueness of resolved instances, thread safety or unknown type codes.
- BinaryType.ResolveIndicatedType: with the LOB flag, the result is whatever the registry returns for the BLOB descriptor. That the resulting type is itself bound to BLOB depends on `resolve`, which is not part of this model.
- The inherited `CorrelatedTableGroup.getTableReferenceInternal`, `TableGroup.getTableReference` and `NavigablePath.isParent` are not part of this model. They are arbitrary functions, so the prefix and ancestry meaning of `isParent` is not modelled.
- TableGroups.CorrelatedPluralTableGroup.RegisterIndexTableGroup and `RegisterElementTableGroup` model the source's `assert` on an empty slot as a precondition. With Java assertions disabled the source would overwrite the slot; that run is not modelled.
- getModelPart (a cast of the inherited model part) and the constructor arguments other than the correlated table group (alias base, query spec, predicate consumer, session factory) are not modelled, because nothing in the lookup reads them.
- getComparator, `fromStringValue`, string parsing and JDBC bind/extract delegate to descriptors that are not part of this model.
- The wall clock (`System.currentTimeMillis`) is an input of `TimestampType.Seed` and `TimestampType.Next`. The session is a parameter that neither version strategy reads.
- `getJavaType()` and `getJavaTypeClass()` of a Java-type descriptor are both modelled by its `javaType` class. Generic type arguments and the unchecked casts of the results are not modelled.
- The descriptors of the DATE, TIME and NCLOB-variant singletons come from classes that are not part of this model. They appear only as tags.
- jakarta.persistence.TemporalType has exactly DATE, TIME and TIMESTAMP. A constant added in a later version is modelled as `Unlisted`, which is how the source's throw becomes reachable.
- The following classes are not modelled: `EmbeddedComponentType`, which depends on reflection and the component tuplizer; the database-backed integration tests; and the annotated entity fixtures.
