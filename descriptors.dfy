/**
  The vocabulary shared by the basic-type rules: JDBC type codes, Java classes,
  the two kinds of type descriptor, the basic types the rules return, and the
  type configuration whose registries the rules consult.
 */
module Descriptors {
  import opened Wrappers

  // Type codes of java.sql.Types used by the rules.
  const VARBINARY: int := -3
  const TIMESTAMP: int := 93
  const BLOB: int := 2004
  const CLOB: int := 2005
  const NCLOB: int := 2011

  /** The Java classes the rules distinguish; every other class is OtherClass. */
  datatype JavaClass =
    | PrimitiveByteArray   // byte[]
    | PrimitiveCharArray   // char[]
    | CharacterArray       // Character[]
    | SqlTimestamp         // java.sql.Timestamp
    | UtilDate             // java.util.Date
    | OtherClass(binaryName: string)

  /** Class.getName(): array classes use the JVM's descriptor form. */
  function ClassName(c: JavaClass): string
  {
    match c
    case PrimitiveByteArray => "[B"
    case PrimitiveCharArray => "[C"
    case CharacterArray => "[Ljava.lang.Character;"
    case SqlTimestamp => "java.sql.Timestamp"
    case UtilDate => "java.util.Date"
    case OtherClass(n) => n
  }

  /** A Java-type descriptor: the domain class it describes, and which descriptor object it is. */
  datatype JavaDescriptor = JavaDescriptor(javaType: JavaClass, descriptor: string)

  /** A JDBC-type descriptor: the SQL type code it binds, and which descriptor object it is. */
  datatype JdbcDescriptor = JdbcDescriptor(sqlTypeCode: int, descriptor: string)

  // The descriptor singletons the modelled types are built from.
  const PrimitiveByteArrayDescriptor := JavaDescriptor(PrimitiveByteArray, "PrimitiveByteArrayTypeDescriptor.INSTANCE")
  const CharacterArrayDescriptor := JavaDescriptor(CharacterArray, "CharacterArrayTypeDescriptor.INSTANCE")
  const JdbcTimestampDescriptor := JavaDescriptor(UtilDate, "JdbcTimestampTypeDescriptor.INSTANCE")
  const VarbinaryDescriptor := JdbcDescriptor(VARBINARY, "VarbinaryTypeDescriptor.INSTANCE")
  const ClobDefaultDescriptor := JdbcDescriptor(CLOB, "ClobTypeDescriptor.DEFAULT")
  const TimestampJdbcDescriptor := JdbcDescriptor(TIMESTAMP, "TimestampTypeDescriptor.INSTANCE")

  /**
    A basic type. The first six are the static INSTANCE singletons of the
    corresponding type classes; Resolved is a type built by the basic-type
    registry from a Java descriptor (possibly null), a JDBC descriptor and a
    registration key (possibly null).
   */
  datatype BasicType =
    | Binary
    | CharArrayClob
    | CharArrayNClob
    | Timestamp
    | Date
    | Time
    | Resolved(javaDescriptor: Option<JavaDescriptor>, jdbcDescriptor: JdbcDescriptor, key: Option<string>)

  /**
    The registries of a type configuration. Their bodies are not part of this
    model, so each is an arbitrary function:
    - jdbcTypeRegistry: JdbcTypeDescriptorRegistry.getDescriptor(code)
    - javaTypeRegistry: JavaTypeDescriptorRegistry.getDescriptor(javaType)
    - basicTypeRegistry: BasicTypeRegistry.resolve(javaDescriptor, jdbcDescriptor, key)
   */
  datatype TypeConfiguration = TypeConfiguration(
    jdbcTypeRegistry: int -> JdbcDescriptor,
    javaTypeRegistry: JavaClass -> JavaDescriptor,
    basicTypeRegistry: (Option<JavaDescriptor>, JdbcDescriptor, Option<string>) -> BasicType)

  /** jakarta.persistence.TemporalType; Unlisted stands for a constant outside the three the rules know. */
  datatype TemporalType = DatePrecision | TimePrecision | TimestampPrecision | Unlisted(constantName: string)

  /** Enum.name() of a temporal precision. */
  function PrecisionName(p: TemporalType): string
  {
    match p
    case DatePrecision => "DATE"
    case TimePrecision => "TIME"
    case TimestampPrecision => "TIMESTAMP"
    case Unlisted(n) => n
  }

  /** JdbcTypeDescriptorIndicators: the context a type is re-resolved under. */
  datatype Indicators = Indicators(
    isLob: bool,
    isNationalized: bool,
    temporalPrecision: Option<TemporalType>,
    typeConfiguration: TypeConfiguration)

  /** The session a version value is computed for; its contents are not consulted by the modelled types. */
  datatype Session = Session(sessionId: nat)
}
