/** The Room type converters of the Android app: enum constants to and from their names,
    and `java.util.Date` to and from its millisecond timestamp, with `null` passed through. */
module Converters {
  import opened Wrappers

  datatype TransactionType = INCOME | EXPENSE
  datatype SyncStatus = SYNCED | PENDING | ERROR

  /** A Kotlin `Long`. */
  newtype Long = x: int | -0x8000_0000_0000_0000 <= x < 0x8000_0000_0000_0000

  /** A `java.util.Date`: a moment as milliseconds since the epoch. */
  datatype JDate = JDate(time: Long)

  /** `fromTimestamp(value)`: `value?.let { Date(it) }`. */
  function FromTimestamp(value: Option<Long>): (r: Option<JDate>)
    ensures r.Some? <==> value.Some?
  {
    match value
    case None => None
    case Some(v) => Some(JDate(v))
  }

  /** `dateToTimestamp(date)`: `date?.time`. */
  function DateToTimestamp(date: Option<JDate>): (r: Option<Long>)
    ensures r.Some? <==> date.Some?
  {
    match date
    case None => None
    case Some(d) => Some(d.time)
  }

  /** The two timestamp converters are inverse to each other, `null` included. */
  lemma TimestampRoundTrip(value: Option<Long>, date: Option<JDate>)
    ensures DateToTimestamp(FromTimestamp(value)) == value
    ensures FromTimestamp(DateToTimestamp(date)) == date
  {
  }

  /** `fromTransactionType(type)`: the constant's `name`. */
  function FromTransactionType(t: TransactionType): string {
    match t
    case INCOME => "INCOME"
    case EXPENSE => "EXPENSE"
  }

  /** The message of the `IllegalArgumentException` that `valueOf` throws for an unknown name. */
  function NoEnumConstant(enumClass: string, name: string): string {
    "No enum constant " + enumClass + "." + name
  }

  /** `toTransactionType(type)`: `TransactionType.valueOf(type)`, which throws unless `type`
      is exactly the name of a constant. */
  function ToTransactionType(s: string): (r: Result<TransactionType, string>)
    ensures r.Ok? <==> s == "INCOME" || s == "EXPENSE"
    ensures r.Ok? ==> FromTransactionType(r.value) == s
    ensures r.Err? ==> r.error == NoEnumConstant("com.zeinflow.cashflow.data.entities.TransactionType", s)
  {
    if s == "INCOME" then Ok(INCOME)
    else if s == "EXPENSE" then Ok(EXPENSE)
    else Err(NoEnumConstant("com.zeinflow.cashflow.data.entities.TransactionType", s))
  }

  /** `fromSyncStatus(status)`: the constant's `name`. */
  function FromSyncStatus(s: SyncStatus): string {
    match s
    case SYNCED => "SYNCED"
    case PENDING => "PENDING"
    case ERROR => "ERROR"
  }

  /** `toSyncStatus(status)`: `SyncStatus.valueOf(status)`. */
  function ToSyncStatus(s: string): (r: Result<SyncStatus, string>)
    ensures r.Ok? <==> s == "SYNCED" || s == "PENDING" || s == "ERROR"
    ensures r.Ok? ==> FromSyncStatus(r.value) == s
    ensures r.Err? ==> r.error == NoEnumConstant("com.zeinflow.cashflow.data.entities.SyncStatus", s)
  {
    if s == "SYNCED" then Ok(SYNCED)
    else if s == "PENDING" then Ok(PENDING)
    else if s == "ERROR" then Ok(ERROR)
    else Err(NoEnumConstant("com.zeinflow.cashflow.data.entities.SyncStatus", s))
  }

  /** Every constant survives a trip through its name, and distinct constants have
      distinct names. */
  lemma EnumRoundTrips(t: TransactionType, u: TransactionType, s: SyncStatus, v: SyncStatus)
    ensures ToTransactionType(FromTransactionType(t)) == Ok(t)
    ensures ToSyncStatus(FromSyncStatus(s)) == Ok(s)
    ensures FromTransactionType(t) == FromTransactionType(u) ==> t == u
    ensures FromSyncStatus(s) == FromSyncStatus(v) ==> s == v
  {
  }

  /** Names are case-sensitive: lower-case spellings fail. */
  lemma LowerCaseNamesFail()
    ensures ToTransactionType("income").Err?
    ensures ToSyncStatus("synced").Err?
  {
  }
}
