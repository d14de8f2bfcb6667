/** What the MySQL driver hands over and what YDB stores. */
module Values {

  datatype IntKind = I64 | I32 | I16 | I8 | U64 | U32 | U16 | U8

  /** A value as `sql.Scan` into an `interface{}` delivers it.  Times are microseconds since 1970 UTC;
      a float is the real number it denotes. */
  datatype Raw =
    | RawNull
    | RawBytes(text: string)
    | RawStr(text: string)
    | RawInt(kind: IntKind, n: int)
    | RawF64(x: real)
    | RawF32(x: real)
    | RawBool(b: bool)
    | RawTime(t: int)

  /** YDB's primitive types; `Bytes` is YQL's String. */
  datatype Prim =
    | Bool
    | Int8 | Int16 | Int32 | Int64
    | Uint8 | Uint16 | Uint32 | Uint64
    | Float | Double
    | Date | Datetime | Timestamp
    | Utf8 | Bytes | Decimal22

  /** A YDB value together with its type: `Null(p)` is the empty Optional<p>, `OptionalOf(v)` wraps one layer. */
  datatype YValue =
    | BoolValue(b: bool)
    | IntValue(prim: Prim, n: int)
    | RealValue(prim: Prim, x: real)
    | TimeValue(prim: Prim, t: int)
    | TextValue(s: string)
    | BytesValue(s: string)
    | Null(prim: Prim)
    | OptionalOf(value: YValue)

  /** A MySQL row: its primary-key tuple is kept apart in `Source.Row`. */
  type Cells = map<string, Raw>

  /** A converted row: the YDB key tuple and the struct of the columns the tool writes. */
  type YKey = seq<YValue>
  type YCells = map<string, YValue>
  datatype YRow = YRow(key: YKey, cells: YCells)

  datatype Result<+T> = Success(value: T) | Failure(error: string) {
    predicate IsFailure() { Failure? }
    function PropagateFailure<U>(): Result<U>
      requires Failure?
    { Failure(error) }
    function Extract(): T
      requires Success?
    { value }
  }
}
