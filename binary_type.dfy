/**
  BinaryType: the basic type pairing VARBINARY with byte[]. It re-resolves to a
  BLOB-backed type when the attribute is marked as a LOB, and acts as a
  (deprecated) version type whose values are generated by the database alone.
 */
module BinaryType {
  import opened Wrappers
  import opened Descriptors

  /** getName() */
  const Name: string := "binary"

  /** A binary version value: a byte[] or null. */
  type BinaryVersion = Option<seq<bv8>>

  /** The descriptors the constructor pairs: the JDBC side first, then the Java side. */
  function ConstructorDescriptors(): (pair: (JdbcDescriptor, JavaDescriptor))
    ensures pair.0.sqlTypeCode == VARBINARY
    ensures pair.1.javaType == PrimitiveByteArray
  {
    (VarbinaryDescriptor, PrimitiveByteArrayDescriptor)
  }

  /** The keys the type is registered under: its name, the source spelling and the JVM name of byte[]. */
  function RegistrationKeys(): (keys: seq<string>)
    ensures keys == ["binary", "byte[]", "[B"]
    ensures forall i, j :: 0 <= i < j < |keys| ==> keys[i] != keys[j]
  {
    [Name, "byte[]", ClassName(PrimitiveByteArray)]
  }

  /** The initial version of a new row: always null, the database generates it. */
  function Seed(session: Session): (version: BinaryVersion)
    ensures version.None?
  {
    None
  }

  /** The version after an update: the current one, untouched. */
  function Next(current: BinaryVersion, session: Session): (version: BinaryVersion)
    ensures version == current
  {
    current
  }

  /** The version a row holds after `next` has been applied once per session in `updates`. */
  function ApplyNext(current: BinaryVersion, updates: seq<Session>): BinaryVersion
    decreases |updates|
  {
    if |updates| == 0 then current else ApplyNext(Next(current, updates[0]), updates[1..])
  }

  /** However many updates run, the engine never replaces the version the database wrote. */
  lemma {:induction false} ApplyNextKeepsStoredVersion(current: BinaryVersion, updates: seq<Session>)
    ensures ApplyNext(current, updates) == current
    decreases |updates|
  {
    if |updates| > 0 {
      ApplyNextKeepsStoredVersion(Next(current, updates[0]), updates[1..]);
    }
  }

  /** A row inserted and then updated any number of times carries a null version on the engine side. */
  lemma SeededVersionStaysNull(insert: Session, updates: seq<Session>)
    ensures ApplyNext(Seed(insert), updates).None?
  {
    ApplyNextKeepsStoredVersion(Seed(insert), updates);
  }

  /**
    resolveIndicatedType: without the LOB indicator the type itself; with it,
    whatever the basic-type registry resolves for the domain descriptor, the
    registry's BLOB descriptor and the key "binary".
   */
  function ResolveIndicatedType(indicators: Indicators, domainJtd: Option<JavaDescriptor>): (r: BasicType)
    ensures !indicators.isLob ==> r == Binary
    ensures indicators.isLob ==>
      var config := indicators.typeConfiguration;
      r == config.basicTypeRegistry(domainJtd, config.jdbcTypeRegistry(BLOB), Some("binary"))
  {
    if !indicators.isLob then
      Binary
    else
      var config := indicators.typeConfiguration;
      var jdbcType := config.jdbcTypeRegistry(BLOB);
      config.basicTypeRegistry(domainJtd, jdbcType, Some(Name))
  }

  /** Without the LOB indicator nothing but the flag is consulted: not the domain descriptor, not the registries. */
  lemma NonLobResolutionIsSelf(indicators: Indicators, other: Indicators, domainJtd: Option<JavaDescriptor>, otherJtd: Option<JavaDescriptor>)
    requires !indicators.isLob && !other.isLob
    ensures ResolveIndicatedType(indicators, domainJtd) == ResolveIndicatedType(other, otherJtd) == Binary
  {
  }

  /**
    The LOB branch asks the JDBC registry for the BLOB code only: replacing the
    registry by any other that agrees on BLOB (and may differ on VARBINARY and
    every other code) leaves the result unchanged.
   */
  lemma LobResolutionAsksOnlyForBlob(indicators: Indicators, otherJdbcRegistry: int -> JdbcDescriptor, domainJtd: Option<JavaDescriptor>)
    requires otherJdbcRegistry(BLOB) == indicators.typeConfiguration.jdbcTypeRegistry(BLOB)
    ensures
      var other := indicators.(typeConfiguration := indicators.typeConfiguration.(jdbcTypeRegistry := otherJdbcRegistry));
      ResolveIndicatedType(other, domainJtd) == ResolveIndicatedType(indicators, domainJtd)
  {
  }
}
