/**
  CharacterArrayClobType: the basic type pairing CLOB with Character[]. It
  re-resolves through the registries when the domain class is the primitive
  char[], and otherwise picks between itself and the NCLOB variant.
 */
module CharacterArrayClobType {
  import opened Wrappers
  import opened Descriptors

  /** getName(): null, the type has no registry name. */
  const Name: Option<string> := None

  /** The descriptors the constructor pairs: the JDBC side first, then the Java side. */
  function ConstructorDescriptors(): (pair: (JdbcDescriptor, JavaDescriptor))
    ensures pair.0.sqlTypeCode == CLOB
    ensures pair.1.javaType == CharacterArray
  {
    (ClobDefaultDescriptor, CharacterArrayDescriptor)
  }

  /** The domain descriptor is present and describes char[]. */
  predicate IsPrimitiveCharArray(domainJtd: Option<JavaDescriptor>)
  {
    domainJtd.Some? && domainJtd.value.javaType == PrimitiveCharArray
  }

  /**
    resolveIndicatedType: for a char[] domain, the registry type for the Java
    registry's char[] descriptor, the NCLOB or CLOB descriptor (by the
    nationalized flag) and a null key; for any other or a null domain, the
    NCLOB singleton when nationalized and the type itself otherwise.
   */
  function ResolveIndicatedType(indicators: Indicators, domainJtd: Option<JavaDescriptor>): (r: BasicType)
    ensures
      var config := indicators.typeConfiguration;
      IsPrimitiveCharArray(domainJtd) && indicators.isNationalized ==>
        r == config.basicTypeRegistry(Some(config.javaTypeRegistry(PrimitiveCharArray)), config.jdbcTypeRegistry(NCLOB), None)
    ensures
      var config := indicators.typeConfiguration;
      IsPrimitiveCharArray(domainJtd) && !indicators.isNationalized ==>
        r == config.basicTypeRegistry(Some(config.javaTypeRegistry(PrimitiveCharArray)), config.jdbcTypeRegistry(CLOB), None)
    ensures !IsPrimitiveCharArray(domainJtd) && indicators.isNationalized ==> r == CharArrayNClob
    ensures !IsPrimitiveCharArray(domainJtd) && !indicators.isNationalized ==> r == CharArrayClob
  {
    if domainJtd.Some? && domainJtd.value.javaType == PrimitiveCharArray then
      var config := indicators.typeConfiguration;
      var jdbcType := if indicators.isNationalized then config.jdbcTypeRegistry(NCLOB) else config.jdbcTypeRegistry(CLOB);
      config.basicTypeRegistry(Some(config.javaTypeRegistry(domainJtd.value.javaType)), jdbcType, Name)
    else if indicators.isNationalized then
      CharArrayNClob
    else
      CharArrayClob
  }

  /** Only the domain class and the nationalized flag are consulted: the LOB flag and the temporal precision are not. */
  lemma ResolutionIgnoresLobAndPrecision(indicators: Indicators, isLob: bool, precision: Option<TemporalType>, domainJtd: Option<JavaDescriptor>)
    ensures
      var other := indicators.(isLob := isLob, temporalPrecision := precision);
      ResolveIndicatedType(other, domainJtd) == ResolveIndicatedType(indicators, domainJtd)
  {
  }

  /**
    Outside the char[] case no registry is consulted: the result is one of the
    two singletons, chosen by the nationalized flag alone.
   */
  lemma SingletonUnlessPrimitiveCharArray(indicators: Indicators, config: TypeConfiguration, domainJtd: Option<JavaDescriptor>)
    requires !IsPrimitiveCharArray(domainJtd)
    ensures ResolveIndicatedType(indicators.(typeConfiguration := config), domainJtd) == ResolveIndicatedType(indicators, domainJtd)
    ensures ResolveIndicatedType(indicators, domainJtd) in {CharArrayClob, CharArrayNClob}
  {
  }

  /**
    In the char[] case the JDBC registry is asked for exactly one code, NCLOB
    when nationalized and CLOB otherwise: a registry that agrees on that code
    gives the same result.
   */
  lemma PrimitiveCharArrayAsksOnlyForChosenCode(indicators: Indicators, otherJdbcRegistry: int -> JdbcDescriptor, domainJtd: Option<JavaDescriptor>)
    requires IsPrimitiveCharArray(domainJtd)
    requires
      var code := if indicators.isNationalized then NCLOB else CLOB;
      otherJdbcRegistry(code) == indicators.typeConfiguration.jdbcTypeRegistry(code)
    ensures
      var other := indicators.(typeConfiguration := indicators.typeConfiguration.(jdbcTypeRegistry := otherJdbcRegistry));
      ResolveIndicatedType(other, domainJtd) == ResolveIndicatedType(indicators, domainJtd)
  {
  }
}
