/**
  TimestampType: the basic type pairing TIMESTAMP with java.util.Date values.
  As a version type it stamps every insert and update with the clock; as a
  temporal parameter type it narrows to the DATE or TIME singletons.
 */
module TimestampType {
  import opened Wrappers
  import opened Descriptors

  /** getName() */
  const Name: string := "timestamp"

  /** A java.sql.Timestamp built from a millisecond clock reading. */
  datatype VersionTimestamp = VersionTimestamp(epochMillis: int)

  /** What resolveTemporalPrecision throws. */
  datatype ResolutionError =
    | QueryException(message: string)
    | NullPointerException   // a switch over a null enum value

  /** The descriptors the constructor pairs: the JDBC side first, then the Java side. */
  function ConstructorDescriptors(): (pair: (JdbcDescriptor, JavaDescriptor))
    ensures pair.0.sqlTypeCode == TIMESTAMP
    ensures pair.1.javaType == UtilDate
  {
    (TimestampJdbcDescriptor, JdbcTimestampDescriptor)
  }

  /** The keys the type is registered under: its name and the names of the two Java classes it serves. */
  function RegistrationKeys(): (keys: seq<string>)
    ensures keys == ["timestamp", "java.sql.Timestamp", "java.util.Date"]
    ensures forall i, j :: 0 <= i < j < |keys| ==> keys[i] != keys[j]
  {
    [Name, ClassName(SqlTimestamp), ClassName(UtilDate)]
  }

  /** The initial version of a new row: the clock reading taken at the call. */
  function Seed(session: Session, clockMillis: int): (version: VersionTimestamp)
    ensures version.epochMillis == clockMillis
  {
    VersionTimestamp(clockMillis)
  }

  /** The version after an update: a fresh seed, whatever the current version is (null included). */
  function Next(current: Option<VersionTimestamp>, session: Session, clockMillis: int): (version: VersionTimestamp)
    ensures version == Seed(session, clockMillis)
    ensures version.epochMillis == clockMillis
  {
    Seed(session, clockMillis)
  }

  /** The version a row holds after `next` has run once per update, each with its session and clock reading. */
  function ApplyNext(current: Option<VersionTimestamp>, updates: seq<(Session, int)>): Option<VersionTimestamp>
    decreases |updates|
  {
    if |updates| == 0 then current
    else ApplyNext(Some(Next(current, updates[0].0, updates[0].1)), updates[1..])
  }

  /** After at least one update the version is the clock reading of the last one: earlier values are forgotten. */
  lemma {:induction false} ApplyNextIsLastReading(current: Option<VersionTimestamp>, updates: seq<(Session, int)>)
    requires |updates| > 0
    ensures ApplyNext(current, updates) == Some(VersionTimestamp(updates[|updates| - 1].1))
    decreases |updates|
  {
    if |updates| > 1 {
      ApplyNextIsLastReading(Some(Next(current, updates[0].0, updates[0].1)), updates[1..]);
    }
  }

  /** The message of the QueryException for a precision the type cannot take. */
  function UnsupportedPrecisionMessage(precisionName: string): string
  {
    "Timestamp type cannot be treated using `" + precisionName + "` precision"
  }

  /** The message names the precision: it can be read back from the message, so different precisions give different messages. */
  lemma UnsupportedPrecisionMessageNamesPrecision(precisionName: string, otherName: string)
    ensures
      var m := UnsupportedPrecisionMessage(precisionName);
      |m| == 51 + |precisionName| && m[40..40 + |precisionName|] == precisionName
    ensures UnsupportedPrecisionMessage(precisionName) == UnsupportedPrecisionMessage(otherName) ==> precisionName == otherName
  {
  }

  /** The three precisions the switch handles. */
  predicate IsHandledPrecision(p: TemporalType)
  {
    p.DatePrecision? || p.TimePrecision? || p.TimestampPrecision?
  }

  /**
    resolveTemporalPrecision: TIMESTAMP gives the type itself, DATE and TIME the
    date and time singletons; any other precision throws a QueryException
    naming it, and a null precision fails in the switch itself.
   */
  function ResolveTemporalPrecision(precision: Option<TemporalType>, typeConfiguration: TypeConfiguration): (r: Result<BasicType, ResolutionError>)
    ensures precision == Some(TimestampPrecision) ==> r == Ok(Timestamp)
    ensures precision == Some(DatePrecision) ==> r == Ok(Date)
    ensures precision == Some(TimePrecision) ==> r == Ok(Time)
    ensures r.Ok? <==> precision.Some? && IsHandledPrecision(precision.value)
    ensures r.Ok? ==> r.value in {Timestamp, Date, Time}
    ensures precision.Some? && !IsHandledPrecision(precision.value) ==>
      r == Err(QueryException(UnsupportedPrecisionMessage(PrecisionName(precision.value))))
    ensures precision.None? ==> r == Err(NullPointerException)
  {
    match precision
    case None => Err(NullPointerException)
    case Some(p) =>
      match p
      case TimestampPrecision => Ok(Timestamp)
      case DatePrecision => Ok(Date)
      case TimePrecision => Ok(Time)
      case Unlisted(_) => Err(QueryException(UnsupportedPrecisionMessage(PrecisionName(p))))
  }
}
