/** JSON values as the management API exchanges them, with the account fields the workbench reads by name. */
module Json {
  import opened Common

  datatype Key =
    | Id | Name | Platform | AccountType | Credentials | Extra | Status | Schedulable | ProxyId | Concurrency
    | Priority | RateMultiplier | LoadFactor | GroupIds | Groups | AccountGroups | Group | GroupId | Notes | ExpiresAt
    | AutoPauseOnExpired | UpstreamBillingProbe | MixedChannelRisk | SkipDefaultGroupBind
    | CredentialsStatus | HasAccessToken | HasRefreshToken | AccessToken | RefreshToken
    | ModelMapping | CompactModelMapping | ChatgptAccountId | LegacyAccountId | ChatgptUserId | UserId
    | Other(name: string)

  /** What the decimal and time-stamp parsers make of a literal; it is fixed by the literal. */
  datatype Reading = Plain | Whole(integer: int) | Decimal(fraction: real) | Stamp(seconds: int)

  datatype Value =
    | Null
    | Bool(flag: bool)
    | Number(literal: string, reading: Reading)
    | Text(content: string, reading: Reading)
    | List(elements: seq<Value>)
    | Object(fields: Fields)

  type Fields = map<Key, Value>

  /** A Go map read: a missing key reads as nil. */
  function Get(fields: Fields, key: Key): Value {
    if key in fields then fields[key] else Null
  }

  /** `object(value)`: the fields of an object, nothing for any other value. */
  function FieldsOf(value: Value): Fields {
    if value.Object? then value.fields else map[]
  }

  /** `text(value)`: trimmed text, or the literal of a number. */
  function TextOf(value: Value): string {
    match value
    case Text(content, _) => Trim(content)
    case Number(literal, _) => literal
    case _ => ""
  }

  function DecimalOf(value: Value): Option<real> {
    if !(value.Text? || value.Number?) then None
    else match value.reading
      case Whole(n) => Some(n as real)
      case Decimal(r) => Some(r)
      case _ => None
  }

  function SecondsOf(value: Value): Option<int> {
    if !(value.Text? || value.Number?) then None
    else match value.reading
      case Whole(n) => Some(n)
      case Stamp(s) => Some(s)
      case _ => None
  }
}
