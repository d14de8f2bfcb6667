/** From a raw MySQL value to a typed YDB value: the branches of mysqlValueToYDB and of its bulk variant. */
module Convert {
  import opened Values
  import opened SqlText
  import opened Substrings

  /** What the writer takes from Go's library: time.Parse (layout, text) in microseconds since 1970 UTC,
      strings.ToValidUTF8 and strings.ToLower. */
  datatype Runtime = Runtime(parse: (string, string) -> Option<int>, repair: string -> string, lower: string -> string)

  const ZERO_TIME := -62135596800000000
  const DAY := 86400000000
  const SECOND := 1000000

  function Wrap(v: YValue, optional: bool): YValue {
    if optional then OptionalOf(v) else v
  }

  // Go's integer conversions.

  function Signed32(n: int): int {
    var m := n % 0x1_0000_0000;
    if m < 0x8000_0000 then m else m - 0x1_0000_0000
  }

  function Unsigned16(n: int): int { n % 0x1_0000 }

  function Unsigned32(n: int): int { n % 0x1_0000_0000 }

  predicate IsStringOrBinary(dt: string) {
    IsText(dt) || IsBinary(dt)
  }

  predicate IsText(dt: string) {
    dt in {"char", "varchar", "text", "mediumtext", "longtext", "json", "enum", "set"}
  }

  predicate IsBinary(dt: string) {
    dt in {"binary", "varbinary", "tinyblob", "blob", "mediumblob", "longblob", "bytes"}
  }

  predicate IsTemporal(dt: string) {
    dt == "date" || dt == "datetime" || dt == "timestamp"
  }

  function TextOrBytes(rt: Runtime, s: string, dt: string): YValue {
    if IsBinary(dt) then BytesValue(s) else TextValue(rt.repair(s))
  }

  function TextOrBytesWithHint(rt: Runtime, s: string, wantsText: bool): YValue {
    if wantsText then TextValue(rt.repair(s)) else BytesValue(s)
  }

  function NullPrim(dt: string): Prim {
    match dt
    case "bool" => Bool
    case "int" => Int32
    case "mediumint" => Int32
    case "smallint" => Int32
    case "tinyint" => Int32
    case "bigint" => Int64
    case "int unsigned" => Uint32
    case "mediumint unsigned" => Uint32
    case "smallint unsigned" => Uint32
    case "tinyint unsigned" => Uint32
    case "bigint unsigned" => Uint64
    case "float" => Float
    case "double" => Double
    case "real" => Double
    case "date" => Date
    case "datetime" => Timestamp
    case "timestamp" => Timestamp
    case "year" => Uint16
    case "bit" => Uint64
    case "decimal" => Decimal22
    case "numeric" => Decimal22
    case _ => if IsBinary(dt) then Bytes else Utf8
  }

  // Dates and times.

  function InstantIn(prim: Prim, t: int): int {
    match prim
    case Date => t / DAY
    case Datetime => t / SECOND
    case _ => t
  }

  function TimeOf(prim: Prim, t: int): YValue {
    TimeValue(prim, InstantIn(prim, t))
  }

  function DateTimeToYdb(t: int, dt: string, nullable: bool): YValue {
    if t < 0 && nullable then (if dt == "date" then Null(Date) else Null(Timestamp))
    else
      var t' := if t < 0 then 0 else t;
      if dt == "date" then TimeOf(Date, t') else TimeOf(Timestamp, t')
  }

  function TrimLeft(s: string): string {
    if s != [] && (s[0] == ' ' || s[0] == '\t') then TrimLeft(s[1..]) else s
  }

  function TrimRight(s: string): string {
    if s != [] && (s[|s| - 1] == ' ' || s[|s| - 1] == '\t') then TrimRight(s[..|s| - 1]) else s
  }

  function FirstParse(rt: Runtime, layouts: seq<string>, s: string): Option<int> {
    if layouts == [] then None
    else if rt.parse(layouts[0], s).Some? then rt.parse(layouts[0], s)
    else FirstParse(rt, layouts[1..], s)
  }

  const DATE_LAYOUTS := ["2006-01-02", "2006-01-02T15:04:05Z07:00", "2006-01-02 15:04:05"]
  const TIME_LAYOUTS :=
    ["2006-01-02 15:04:05", "2006-01-02T15:04:05Z07:00", "2006-01-02 15:04:05.999999",
     "2006-01-02T15:04:05.999999999Z07:00"]

  function ParseDateTimeToTime(rt: Runtime, text: string, dt: string): Option<int> {
    var s := TrimRight(TrimLeft(text));
    if s == "" || s == "0000-00-00" || s == "0000-00-00 00:00:00" then
      if IsTemporal(dt) then Some(ZERO_TIME) else None
    else if dt == "date" then FirstParse(rt, DATE_LAYOUTS, s)
    else if dt == "datetime" || dt == "timestamp" then FirstParse(rt, TIME_LAYOUTS, s)
    else None
  }

  function ParseDateTime(rt: Runtime, text: string, dt: string, nullable: bool): Option<YValue> {
    match ParseDateTimeToTime(rt, text, dt)
    case None => None
    case Some(t) => Some(DateTimeToYdb(t, dt, nullable))
  }

  // Integers and booleans.

  function RawToBool(raw: Raw): Option<bool> {
    match raw
    case RawBool(b) => Some(b)
    case RawInt(_, n) => Some(n != 0)
    case RawBytes(s) => Some(ParseBoolString(TrimRight(TrimLeft(s))))
    case RawStr(s) => Some(ParseBoolString(TrimRight(TrimLeft(s))))
    case _ => None
  }

  predicate ParseBoolString(s: string) {
    s == "1" || s == "true" || s == "yes" || s == "on"
  }

  function IntToYdb(kind: IntKind, n: int, dt: string): YValue {
    match kind
    case I64 =>
      if dt == "int" then IntValue(Int32, Signed32(n))
      else if dt == "year" then IntValue(Uint16, Unsigned16(n))
      else IntValue(Int64, n)
    case I32 => if dt == "year" then IntValue(Uint16, Unsigned16(n)) else IntValue(Int32, n)
    case I16 => if dt == "year" then IntValue(Uint16, Unsigned16(n)) else IntValue(Int16, n)
    case I8 => IntValue(Int8, n)
    case U64 =>
      if dt == "int unsigned" then IntValue(Uint32, Unsigned32(n))
      else if dt == "year" then IntValue(Uint16, Unsigned16(n))
      else IntValue(Uint64, n)
    case U32 => if dt == "year" then IntValue(Uint16, Unsigned16(n)) else IntValue(Uint32, n)
    case U16 => IntValue(Uint16, n)
    case U8 => IntValue(Uint8, n)
  }

  function MysqlValueToYdb(rt: Runtime, raw: Raw, dt: string, nullable: bool): Result<YValue> {
    if raw.RawNull? then
      if !nullable then Failure("NOT NULL column got NULL") else Success(Null(NullPrim(dt)))
    else if dt == "bool" && RawToBool(raw).Some? then Success(Wrap(BoolValue(RawToBool(raw).value), nullable))
    else
      match raw
      case RawBytes(s) => Success(Wrap(StringToYdb(rt, s, dt, nullable), nullable))
      case RawStr(s) => Success(Wrap(StringToYdb(rt, s, dt, nullable), nullable))
      case RawInt(kind, n) => Success(Wrap(IntToYdb(kind, n, dt), nullable))
      case RawF64(x) => Success(Wrap(RealValue(Double, x), nullable))
      case RawF32(x) => Success(Wrap(RealValue(Float, x), nullable))
      case RawBool(b) => Success(Wrap(BoolValue(b), nullable))
      case RawTime(t) => Success(Wrap(DateTimeToYdb(t, dt, nullable), nullable))
  }

  function StringToYdb(rt: Runtime, s: string, dt: string, nullable: bool): YValue {
    match ParseDateTime(rt, s, dt, nullable)
    case Some(v) => v
    case None => TextOrBytes(rt, s, dt)
  }

  // The bulk variant: coercion to the described YDB column type `yql`.

  predicate IsOptional(yql: string) { Contains(yql, "Optional<") }

  predicate WantsText(yql: string) { Contains(yql, "Utf8") || Contains(yql, "Text") }

  predicate IsYdbDate(yql: string) {
    Contains(yql, "Timestamp") || Contains(yql, "Datetime") || Contains(yql, "Date")
  }

  function CoerceInt(v: int, yql: string): Option<YValue> {
    if Contains(yql, "Uint64") then Some(IntValue(Uint64, if v >= 0 then v else 0))
    else if Contains(yql, "Int64") then Some(IntValue(Int64, v))
    else if Contains(yql, "Uint32") then
      if 0 <= v <= 0xFFFF_FFFF then Some(IntValue(Uint32, v))
      else if v < 0 then Some(IntValue(Uint32, 0))
      else Some(IntValue(Uint32, 0xFFFF_FFFF))
    else if Contains(yql, "Int32") then
      if -0x8000_0000 <= v <= 0x7FFF_FFFF then Some(IntValue(Int32, v)) else None
    else if Contains(yql, "Uint16") then
      if 0 <= v <= 0xFFFF then Some(IntValue(Uint16, v)) else None
    else None
  }

  function CoerceUint(v: int, yql: string): Option<YValue> {
    if Contains(yql, "Uint64") then Some(IntValue(Uint64, v))
    else if Contains(yql, "Uint32") then Some(IntValue(Uint32, if v <= 0xFFFF_FFFF then v else 0xFFFF_FFFF))
    else if Contains(yql, "Uint16") then
      if v <= 0xFFFF then Some(IntValue(Uint16, v)) else None
    else if Contains(yql, "Int64") then
      if v <= 0x7FFF_FFFF_FFFF_FFFF then Some(IntValue(Int64, v)) else None
    else if Contains(yql, "Int32") then
      if v <= 0x7FFF_FFFF then Some(IntValue(Int32, v)) else None
    else None
  }

  function DateTimeForBulk(t: int, nullable: bool, yql: string): YValue {
    if t < 0 && (nullable || IsOptional(yql)) then
      if Contains(yql, "Timestamp") then Null(Timestamp)
      else if Contains(yql, "Datetime") then Null(Datetime)
      else if Contains(yql, "Date") then Null(Date)
      else Null(Timestamp)
    else
      var t' := if t < 0 then 0 else t;
      var v :=
        if Contains(yql, "Datetime") then TimeOf(Datetime, t')
        else if Contains(yql, "Date") then TimeOf(Date, t')
        else TimeOf(Timestamp, t');
      Wrap(v, IsOptional(yql))
  }

  function NullForBulk(dt: string, yql: string): YValue {
    if IsTemporal(dt) && IsYdbDate(yql) then DateTimeForBulk(ZERO_TIME, true, yql)
    else if IsStringOrBinary(dt) then Null(if WantsText(yql) then Utf8 else Bytes)
    else Null(NullPrim(dt))
  }

  function StringForBulk(rt: Runtime, s: string, dt: string, nullable: bool, yql: string): YValue {
    if IsTemporal(dt) && IsYdbDate(yql) && ParseDateTimeToTime(rt, s, dt).Some? then
      DateTimeForBulk(ParseDateTimeToTime(rt, s, dt).value, nullable, yql)
    else if ParseDateTime(rt, s, dt, nullable).Some? then
      Wrap(ParseDateTime(rt, s, dt, nullable).value, IsOptional(yql))
    else if IsStringOrBinary(dt) then Wrap(TextOrBytesWithHint(rt, s, WantsText(yql)), IsOptional(yql))
    else Wrap(TextOrBytes(rt, s, dt), IsOptional(yql))
  }

  function IntForBulk(kind: IntKind, n: int, dt: string, yql: string): YValue {
    var coerced :=
      match kind
      case I64 => CoerceInt(n, yql)
      case I32 => CoerceInt(n, yql)
      case U64 => CoerceUint(n, yql)
      case U32 => CoerceUint(n, yql)
      case _ => None;
    Wrap(if coerced.Some? then coerced.value else IntToYdb(kind, n, dt), IsOptional(yql))
  }

  function MysqlValueToYdbForBulk(rt: Runtime, raw: Raw, dt: string, nullable: bool, yql: string): Result<YValue> {
    if yql == "" then MysqlValueToYdb(rt, raw, dt, nullable)
    else if raw.RawNull? then
      if !nullable then Failure("NOT NULL column got NULL") else Success(NullForBulk(dt, yql))
    else if dt == "bool" && RawToBool(raw).Some? then Success(Wrap(BoolValue(RawToBool(raw).value), IsOptional(yql)))
    else
      match raw
      case RawBytes(s) => Success(StringForBulk(rt, s, dt, nullable, yql))
      case RawStr(s) => Success(StringForBulk(rt, s, dt, nullable, yql))
      case RawInt(kind, n) => Success(IntForBulk(kind, n, dt, yql))
      case RawTime(t) =>
        if IsTemporal(dt) && IsYdbDate(yql) then Success(DateTimeForBulk(t, nullable, yql))
        else Success(Wrap(DateTimeToYdb(t, dt, false), IsOptional(yql)))
      case RawF64(x) => Success(Wrap(RealValue(Double, x), IsOptional(yql)))
      case RawF32(x) => Success(Wrap(RealValue(Float, x), IsOptional(yql)))
      case RawBool(b) => Success(Wrap(BoolValue(b), IsOptional(yql)))
  }

  predicate IsBlank(c: char) { c == ' ' || c == '\t' }

  /** Blanks go from both ends and nowhere else. */
  method TrimSpace(text: string) returns (s: string)
    ensures s == TrimRight(TrimLeft(text))
  {
    s := text;
    while |s| > 0 && (s[0] == ' ' || s[0] == '\t')
      invariant TrimLeft(s) == TrimLeft(text)
    {
      s := s[1..];
    }
    while |s| > 0 && (s[|s| - 1] == ' ' || s[|s| - 1] == '\t')
      invariant TrimRight(s) == TrimRight(TrimLeft(text))
    {
      s := s[..|s| - 1];
    }
  }

  /** What TrimLeft drops is a run of blanks, and the longest one. */
  lemma {:induction false} TrimLeftDropsBlanks(s: string)
    ensures var r := TrimLeft(s);
            && |r| <= |s| && r == s[|s| - |r|..]
            && (forall i :: 0 <= i < |s| - |r| ==> IsBlank(s[i]))
            && (r != [] ==> !IsBlank(r[0]))
  {
    if s == [] || !IsBlank(s[0]) {
    } else {
      TrimLeftDropsBlanks(s[1..]);
      assert forall i :: 0 < i < |s| ==> s[i] == s[1..][i - 1];
    }
  }

  lemma {:induction false} TrimRightDropsBlanks(s: string)
    ensures var r := TrimRight(s);
            && r <= s
            && (forall i :: |r| <= i < |s| ==> IsBlank(s[i]))
            && (r != [] ==> !IsBlank(r[|r| - 1]))
  {
    if s == [] || !IsBlank(s[|s| - 1]) {
    } else {
      TrimRightDropsBlanks(s[..|s| - 1]);
    }
  }
}
