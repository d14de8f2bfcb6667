/** A converted value has exactly the type of the YDB column it is written to. */
module TypeSoundness {
  import opened Values
  import opened YdbTypes
  import opened Substrings
  import opened ColumnTypes
  import opened Convert

  /** The type DDL text denotes. */
  function PrimNamed(name: string): Prim {
    match name
    case "Bool" => Bool
    case "Int32" => Int32
    case "Int64" => Int64
    case "Uint16" => Uint16
    case "Uint32" => Uint32
    case "Uint64" => Uint64
    case "Float" => Float
    case "Double" => Double
    case "Date" => Date
    case "Timestamp" => Timestamp
    case "String" => Bytes
    case "Decimal(22, 9)" => Decimal22
    case _ => Utf8
  }

  function CreatedPrim(dt: string): Prim {
    PrimNamed(YqlBase(dt))
  }

  predicate IsInteger(p: Prim) {
    p in {Int32, Int64, Uint16, Uint32, Uint64}
  }

  predicate InRange(p: Prim, n: int) {
    match p
    case Int32 => -0x8000_0000 <= n < 0x8000_0000
    case Int64 => -0x8000_0000_0000_0000 <= n < 0x8000_0000_0000_0000
    case Uint16 => 0 <= n < 0x1_0000
    case Uint32 => 0 <= n < 0x1_0000_0000
    case Uint64 => 0 <= n < 0x1_0000_0000_0000_0000
    case _ => false
  }

  /** The integer kinds the driver produces. */
  predicate IsDriverInt(kind: IntKind, n: int) {
    match kind
    case I64 => InRange(Int64, n)
    case I32 => InRange(Int32, n)
    case U64 => InRange(Uint64, n)
    case U32 => InRange(Uint32, n)
    case _ => false
  }

  /** The column types a type key may be written to: the one the DDL creates, any date type for a date,
      and either of the string types for a string. */
  predicate Accepts(dt: string, p: Prim) {
    if IsTemporal(dt) then p in {Date, Datetime, Timestamp}
    else if IsStringOrBinary(dt) then p in {Utf8, Bytes}
    else p == CreatedPrim(dt)
  }

  /** The type keys that have a YDB type but no conversion. */
  predicate IsUntranslated(dt: string) {
    dt == "bit" || dt == "decimal" || dt == "numeric"
  }

  /** A non-null value of the kind and range in which the driver delivers a column of this type key. */
  predicate FromDriver(raw: Raw, dt: string) {
    if IsUntranslated(dt) then raw.RawBytes? || raw.RawStr? else OfPrim(raw, CreatedPrim(dt))
  }

  predicate OfPrim(raw: Raw, prim: Prim) {
    match prim
    case Bool => raw.RawInt? || raw.RawBytes? || raw.RawStr? || raw.RawBool?
    case Float => raw.RawF32?
    case Double => raw.RawF64?
    case Date => raw.RawTime? || raw.RawBytes? || raw.RawStr?
    case Timestamp => raw.RawTime? || raw.RawBytes? || raw.RawStr?
    case Utf8 => raw.RawBytes? || raw.RawStr?
    case Bytes => raw.RawBytes? || raw.RawStr?
    case p => IntegerFor(p, raw)
  }

  predicate IntegerFor(p: Prim, raw: Raw) {
    match raw
    case RawInt(kind, n) => IsInteger(p) && IsDriverInt(kind, n) && InRange(p, n)
    case _ => false
  }

  /** Not date text that the code fails to read: text of a date column must be blank, one of the two zero dates or fit
      a layout, and every other value reads. */
  predicate Reads(rt: Runtime, raw: Raw, dt: string) {
    IsTemporal(dt) && (raw.RawBytes? || raw.RawStr?) ==> ParseDateTimeToTime(rt, raw.text, dt).Some?
  }

  // What strings.Contains finds in a type name.

  lemma Absent(p: string, j: nat, name: string, optional: bool)
    requires j < |p| && p[j] !in name && p[j] !in "Optional<>"
    ensures !Contains(Yql(name, optional), p)
  {
    MissingChar(Yql(name, optional), p, j);
  }

  lemma Present(p: string, name: string, optional: bool)
    requires p <= name
    ensures Contains(Yql(name, optional), p)
  {
    if optional { ContainsAt(Yql(name, optional), p, 9); }
  }

  lemma OptionalSeen(name: string, p: Prim, optional: bool)
    requires IsNameOf(name, p)
    ensures IsOptional(Yql(name, optional)) == optional && Yql(name, optional) != ""
  {
    if optional {
      assert "Optional<" <= Yql(name, optional);
    } else {
      assert '<' !in name;
      MissingChar(name, "Optional<", 8);
    }
  }

  lemma IntegerSeen(p: Prim, q: Prim, optional: bool)
    requires IsInteger(p) && IsInteger(q)
    ensures Contains(Yql(PrimName(p), optional), PrimName(q)) <==> p == q
  {
    if p == q {
      Present(PrimName(q), PrimName(p), optional);
    } else if (p == Int32 || p == Int64) != (q == Int32 || q == Int64) {
      Absent(PrimName(q), 0, PrimName(p), optional);
    } else if q == Int32 || q == Int64 {
      Absent(PrimName(q), 3, PrimName(p), optional);
    } else {
      Absent(PrimName(q), if q == Uint64 then 5 else 4, PrimName(p), optional);
    }
  }

  lemma IntegersSeen(p: Prim, optional: bool)
    requires IsInteger(p)
    ensures var yql := Yql(PrimName(p), optional);
            && (Contains(yql, "Uint64") <==> p == Uint64) && (Contains(yql, "Int64") <==> p == Int64)
            && (Contains(yql, "Uint32") <==> p == Uint32) && (Contains(yql, "Int32") <==> p == Int32)
            && (Contains(yql, "Uint16") <==> p == Uint16)
  {
    IntegerSeen(p, Uint64, optional);
    IntegerSeen(p, Int64, optional);
    IntegerSeen(p, Uint32, optional);
    IntegerSeen(p, Int32, optional);
    IntegerSeen(p, Uint16, optional);
  }

  lemma TimestampSeen(optional: bool)
    ensures var yql := Yql("Timestamp", optional);
            Contains(yql, "Timestamp") && !Contains(yql, "Datetime") && !Contains(yql, "Date")
  {
    Present("Timestamp", "Timestamp", optional);
    Absent("Datetime", 0, "Timestamp", optional);
    Absent("Date", 0, "Timestamp", optional);
  }

  lemma DatetimeSeen(optional: bool)
    ensures var yql := Yql("Datetime", optional);
            !Contains(yql, "Timestamp") && Contains(yql, "Datetime") && Contains(yql, "Date")
  {
    Absent("Timestamp", 0, "Datetime", optional);
    Present("Datetime", "Datetime", optional);
    Present("Date", "Datetime", optional);
  }

  lemma DateSeen(optional: bool)
    ensures var yql := Yql("Date", optional);
            !Contains(yql, "Timestamp") && !Contains(yql, "Datetime") && Contains(yql, "Date")
  {
    Absent("Timestamp", 0, "Date", optional);
    Absent("Datetime", 6, "Date", optional);
    Present("Date", "Date", optional);
  }

  lemma DatesSeen(p: Prim, optional: bool)
    requires p in {Date, Datetime, Timestamp}
    ensures var yql := Yql(PrimName(p), optional);
            && (Contains(yql, "Timestamp") <==> p == Timestamp) && (Contains(yql, "Datetime") <==> p == Datetime)
            && (Contains(yql, "Date") <==> p != Timestamp)
  {
    TimestampSeen(optional);
    DatetimeSeen(optional);
    DateSeen(optional);
  }

  lemma TextSeen(name: string, p: Prim, optional: bool)
    requires IsNameOf(name, p) && p in {Utf8, Bytes}
    ensures WantsText(Yql(name, optional)) <==> p == Utf8
  {
    if p == Bytes {
      Absent("Utf8", 0, name, optional);
      Absent("Text", 2, name, optional);
    } else {
      Present(name, name, optional);
    }
  }

  // Soundness, one kind of value at a time.

  lemma IntegersSound(kind: IntKind, n: int, dt: string, p: Prim, optional: bool)
    requires IsInteger(p) && IsDriverInt(kind, n) && InRange(p, n)
    ensures IntForBulk(kind, n, dt, Yql(PrimName(p), optional)) == Wrap(IntValue(p, n), optional)
  {
    IntegersSeen(p, optional);
    OptionalSeen(PrimName(p), p, optional);
  }

  /** A date that YDB can hold keeps its instant at the column's precision; one before 1970 becomes NULL
      where the column allows it and 1970-01-01 elsewhere. */
  lemma InstantsSound(t: int, nullable: bool, p: Prim, optional: bool)
    requires p in {Date, Datetime, Timestamp} && (nullable ==> optional)
    ensures DateTimeForBulk(t, nullable, Yql(PrimName(p), optional)) ==
            if t >= 0 then Wrap(TimeOf(p, t), optional)
            else if optional then Null(p)
            else TimeOf(p, 0)
  {
    DatesSeen(p, optional);
    OptionalSeen(PrimName(p), p, optional);
  }

  lemma StringsAreNoDates(rt: Runtime, s: string, dt: string, nullable: bool, yql: string)
    requires IsStringOrBinary(dt)
    ensures StringForBulk(rt, s, dt, nullable, yql) ==
            Wrap(TextOrBytesWithHint(rt, s, WantsText(yql)), IsOptional(yql))
  {}

  lemma StringsSound(rt: Runtime, s: string, dt: string, nullable: bool, name: string, p: Prim, optional: bool)
    requires IsNameOf(name, p) && IsStringOrBinary(dt) && p in {Utf8, Bytes}
    ensures StringForBulk(rt, s, dt, nullable, Yql(name, optional)) ==
            Wrap(if p == Utf8 then TextValue(rt.repair(s)) else BytesValue(s), optional)
  {
    StringsAreNoDates(rt, s, dt, nullable, Yql(name, optional));
    TextSeen(name, p, optional);
    OptionalSeen(name, p, optional);
  }

  lemma DateNullsSound(dt: string, p: Prim)
    requires IsTemporal(dt) && p in {Date, Datetime, Timestamp}
    ensures NullForBulk(dt, Yql(PrimName(p), true)) == Null(p)
  {
    DatesSeen(p, true);
    InstantsSound(ZERO_TIME, true, p, true);
  }

  lemma StringNullsSound(dt: string, name: string, p: Prim)
    requires IsStringOrBinary(dt) && p in {Utf8, Bytes} && IsNameOf(name, p)
    ensures NullForBulk(dt, Yql(name, true)) == Null(p)
  {
    TextSeen(name, p, true);
  }

  lemma OtherNullsSound(dt: string, yql: string)
    requires !IsTemporal(dt) && !IsStringOrBinary(dt)
    ensures NullForBulk(dt, yql) == Null(CreatedPrim(dt))
  {}

  lemma NullsSound(dt: string, name: string, p: Prim, optional: bool)
    requires IsNameOf(name, p) && Accepts(dt, p)
    ensures NullForBulk(dt, Yql(name, true)) == Null(p)
  {
    if IsTemporal(dt) {
      DateNullsSound(dt, p);
    } else if IsStringOrBinary(dt) {
      StringNullsSound(dt, name, p);
    } else {
      OtherNullsSound(dt, Yql(name, true));
    }
  }

  lemma ReadDatesArrive(rt: Runtime, s: string, dt: string, nullable: bool, p: Prim, optional: bool)
    requires IsTemporal(dt) && ParseDateTimeToTime(rt, s, dt).Some? && p in {Date, Datetime, Timestamp}
    ensures StringForBulk(rt, s, dt, nullable, Yql(PrimName(p), optional)) ==
            DateTimeForBulk(ParseDateTimeToTime(rt, s, dt).value, nullable, Yql(PrimName(p), optional))
  {
    DatesSeen(p, optional);
  }

  lemma ReadDatesSound(rt: Runtime, s: string, dt: string, nullable: bool, ty: YType)
    requires IsTemporal(dt) && ParseDateTimeToTime(rt, s, dt).Some?
    requires ty.prim in {Date, Datetime, Timestamp} && (nullable ==> ty.optional)
    ensures HasType(StringForBulk(rt, s, dt, nullable, Yql(PrimName(ty.prim), ty.optional)), ty)
  {
    ReadDatesArrive(rt, s, dt, nullable, ty.prim, ty.optional);
    InstantsSound(ParseDateTimeToTime(rt, s, dt).value, nullable, ty.prim, ty.optional);
  }

  /** Date text that is not read goes to YDB as Text. */
  lemma UnreadDatesAreText(rt: Runtime, s: string, dt: string, nullable: bool, p: Prim, optional: bool)
    requires IsTemporal(dt) && ParseDateTimeToTime(rt, s, dt).None?
    requires p in {Date, Datetime, Timestamp}
    ensures StringForBulk(rt, s, dt, nullable, Yql(PrimName(p), optional)) == Wrap(TextValue(rt.repair(s)), optional)
  {
    OptionalSeen(PrimName(p), p, optional);
  }

  lemma DatesSoundIffRead(rt: Runtime, s: string, dt: string, nullable: bool, ty: YType)
    requires IsTemporal(dt) && ty.prim in {Date, Datetime, Timestamp} && (nullable ==> ty.optional)
    ensures HasType(StringForBulk(rt, s, dt, nullable, Yql(PrimName(ty.prim), ty.optional)), ty) <==>
              ParseDateTimeToTime(rt, s, dt).Some?
  {
    if ParseDateTimeToTime(rt, s, dt).Some? {
      ReadDatesSound(rt, s, dt, nullable, ty);
    } else {
      UnreadDatesAreText(rt, s, dt, nullable, ty.prim, ty.optional);
    }
  }

  lemma OtherStringsSound(rt: Runtime, s: string, dt: string, nullable: bool, name: string, ty: YType)
    requires IsNameOf(name, Utf8) && ty.prim == Utf8
    requires !IsTemporal(dt) && !IsStringOrBinary(dt)
    ensures HasType(StringForBulk(rt, s, dt, nullable, Yql(name, ty.optional)), ty)
  {
    OptionalSeen(name, Utf8, ty.optional);
  }

  lemma StringKinds(dt: string)
    ensures IsBinary(dt) <==> CreatedPrim(dt) == Bytes
    ensures IsText(dt) ==> CreatedPrim(dt) == Utf8
  {}

  /** How the type keys fall into kinds. */
  lemma Kinds(dt: string)
    ensures dt == "bool" <==> CreatedPrim(dt) == Bool
    ensures IsTemporal(dt) <==> CreatedPrim(dt) in {Date, Timestamp}
    ensures IsBinary(dt) <==> CreatedPrim(dt) == Bytes
    ensures IsText(dt) ==> CreatedPrim(dt) == Utf8
  {
    StringKinds(dt);
  }

  ghost predicate Setting(dt: string, nullable: bool, name: string, ty: YType) {
    IsNameOf(name, ty.prim) && Accepts(dt, ty.prim) && (nullable ==> ty.optional)
  }

  lemma StringsHaveType(rt: Runtime, s: string, dt: string, nullable: bool, name: string, ty: YType)
    requires Setting(dt, nullable, name, ty) && dt != "bool" && !IsUntranslated(dt)
    requires FromDriver(RawBytes(s), dt)
    ensures HasType(StringForBulk(rt, s, dt, nullable, Yql(name, ty.optional)), ty) <==> Reads(rt, RawBytes(s), dt)
  {
    Kinds(dt);
    if IsTemporal(dt) {
      DatesSoundIffRead(rt, s, dt, nullable, ty);
    } else if IsStringOrBinary(dt) {
      StringsSound(rt, s, dt, nullable, name, ty.prim, ty.optional);
    } else {
      OtherStringsSound(rt, s, dt, nullable, name, ty);
    }
  }

  ghost predicate Sound(r: Result<YValue>, ty: YType) {
    r.Success? && HasType(r.value, ty)
  }

  lemma BoolsSound(rt: Runtime, raw: Raw, nullable: bool, name: string, ty: YType)
    requires IsNameOf(name, Bool) && ty.prim == Bool
    requires raw.RawInt? || raw.RawBytes? || raw.RawStr? || raw.RawBool?
    ensures Sound(MysqlValueToYdbForBulk(rt, raw, "bool", nullable, Yql(name, ty.optional)), ty)
  {
    OptionalSeen(name, Bool, ty.optional);
  }

  lemma IntegerValuesSound(rt: Runtime, raw: Raw, dt: string, nullable: bool, name: string, ty: YType)
    requires Setting(dt, nullable, name, ty) && dt != "bool"
    requires raw.RawInt? && FromDriver(raw, dt)
    ensures Sound(MysqlValueToYdbForBulk(rt, raw, dt, nullable, Yql(name, ty.optional)), ty)
  {
    Kinds(dt);
    OptionalSeen(name, ty.prim, ty.optional);
    IntegersSound(raw.kind, raw.n, dt, ty.prim, ty.optional);
  }

  lemma FloatsSound(rt: Runtime, raw: Raw, dt: string, nullable: bool, name: string, ty: YType)
    requires Setting(dt, nullable, name, ty) && dt != "bool"
    requires (raw.RawF32? || raw.RawF64?) && FromDriver(raw, dt)
    ensures Sound(MysqlValueToYdbForBulk(rt, raw, dt, nullable, Yql(name, ty.optional)), ty)
  {
    Kinds(dt);
    OptionalSeen(name, ty.prim, ty.optional);
  }

  lemma TimesAreDates(raw: Raw, dt: string)
    requires raw.RawTime? && FromDriver(raw, dt)
    ensures IsTemporal(dt)
  {
    Kinds(dt);
  }

  lemma TimesHaveType(rt: Runtime, raw: Raw, dt: string, nullable: bool, name: string, ty: YType)
    requires Setting(dt, nullable, name, ty)
    requires raw.RawTime? && FromDriver(raw, dt)
    ensures IsTemporal(dt) && IsYdbDate(Yql(name, ty.optional))
    ensures HasType(DateTimeForBulk(raw.t, nullable, Yql(name, ty.optional)), ty)
  {
    TimesAreDates(raw, dt);
    DatesSeen(ty.prim, ty.optional);
    InstantsSound(raw.t, nullable, ty.prim, ty.optional);
  }

  lemma DriverNeverSends(raw: Raw, dt: string)
    requires FromDriver(raw, dt)
    ensures !raw.RawNull? && (raw.RawBool? ==> dt == "bool")
    ensures dt == "bool" ==> raw.RawInt? || raw.RawBytes? || raw.RawStr? || raw.RawBool?
  {
    Kinds(dt);
  }

  lemma StringValuesSound(rt: Runtime, raw: Raw, dt: string, nullable: bool, name: string, ty: YType)
    requires Setting(dt, nullable, name, ty) && FromDriver(raw, dt) && dt != "bool" && !IsUntranslated(dt)
    requires raw.RawBytes? || raw.RawStr?
    ensures MysqlValueToYdbForBulk(rt, raw, dt, nullable, Yql(name, ty.optional)).Success?
    ensures Sound(MysqlValueToYdbForBulk(rt, raw, dt, nullable, Yql(name, ty.optional)), ty) <==> Reads(rt, raw, dt)
  {
    OptionalSeen(name, ty.prim, ty.optional);
    StringsHaveType(rt, raw.text, dt, nullable, name, ty);
  }

  lemma TimeValuesSound(rt: Runtime, raw: Raw, dt: string, nullable: bool, name: string, ty: YType)
    requires Setting(dt, nullable, name, ty) && dt != "bool"
    requires raw.RawTime? && FromDriver(raw, dt)
    ensures Sound(MysqlValueToYdbForBulk(rt, raw, dt, nullable, Yql(name, ty.optional)), ty)
  {
    OptionalSeen(name, ty.prim, ty.optional);
    TimesHaveType(rt, raw, dt, nullable, name, ty);
  }

  lemma FloatsRemain(raw: Raw, dt: string)
    requires FromDriver(raw, dt) && dt != "bool"
    requires !raw.RawBytes? && !raw.RawStr? && !raw.RawInt? && !raw.RawTime?
    ensures raw.RawF32? || raw.RawF64?
  {
    DriverNeverSends(raw, dt);
  }

  lemma NumbersSound(rt: Runtime, raw: Raw, dt: string, nullable: bool, name: string, ty: YType)
    requires Setting(dt, nullable, name, ty) && FromDriver(raw, dt) && dt != "bool"
    requires !raw.RawBytes? && !raw.RawStr? && !raw.RawTime?
    ensures Sound(MysqlValueToYdbForBulk(rt, raw, dt, nullable, Yql(name, ty.optional)), ty)
  {
    if raw.RawInt? {
      IntegerValuesSound(rt, raw, dt, nullable, name, ty);
    } else {
      FloatsRemain(raw, dt);
      FloatsSound(rt, raw, dt, nullable, name, ty);
    }
  }

  lemma NumbersAndTimesSound(rt: Runtime, raw: Raw, dt: string, nullable: bool, name: string, ty: YType)
    requires Setting(dt, nullable, name, ty) && FromDriver(raw, dt) && dt != "bool"
    requires !raw.RawBytes? && !raw.RawStr?
    ensures Sound(MysqlValueToYdbForBulk(rt, raw, dt, nullable, Yql(name, ty.optional)), ty)
  {
    if raw.RawTime? {
      TimeValuesSound(rt, raw, dt, nullable, name, ty);
    } else {
      NumbersSound(rt, raw, dt, nullable, name, ty);
    }
  }

  lemma UntranslatedPrim(dt: string, p: Prim)
    requires IsUntranslated(dt) && Accepts(dt, p)
    ensures p == if dt == "bit" then Uint64 else Decimal22
  {}

  lemma UntranslatedText(rt: Runtime, s: string, dt: string, nullable: bool, yql: string)
    requires IsUntranslated(dt)
    ensures StringForBulk(rt, s, dt, nullable, yql) == Wrap(TextValue(rt.repair(s)), IsOptional(yql))
  {}

  /** Bits and decimals go as Text to the Uint64 and Decimal columns created for them. */
  lemma UntranslatedAreText(rt: Runtime, raw: Raw, dt: string, nullable: bool, name: string, p: Prim, optional: bool)
    requires IsUntranslated(dt) && IsNameOf(name, p) && Accepts(dt, p)
    requires raw.RawBytes? || raw.RawStr?
    ensures p == (if dt == "bit" then Uint64 else Decimal22)
    ensures MysqlValueToYdbForBulk(rt, raw, dt, nullable, Yql(name, optional)) ==
            Success(Wrap(TextValue(rt.repair(raw.text)), optional))
  {
    UntranslatedPrim(dt, p);
    OptionalSeen(name, p, optional);
    UntranslatedText(rt, raw.text, dt, nullable, Yql(name, optional));
  }

  lemma NonNullSoundIffRead(rt: Runtime, raw: Raw, dt: string, nullable: bool, name: string, ty: YType)
    requires Setting(dt, nullable, name, ty) && FromDriver(raw, dt) && dt != "bool" && !IsUntranslated(dt)
    ensures MysqlValueToYdbForBulk(rt, raw, dt, nullable, Yql(name, ty.optional)).Success?
    ensures Sound(MysqlValueToYdbForBulk(rt, raw, dt, nullable, Yql(name, ty.optional)), ty) <==> Reads(rt, raw, dt)
  {
    if raw.RawBytes? || raw.RawStr? {
      StringValuesSound(rt, raw, dt, nullable, name, ty);
    } else {
      NumbersAndTimesSound(rt, raw, dt, nullable, name, ty);
    }
  }

  lemma NullsSoundOrRefused(rt: Runtime, dt: string, nullable: bool, name: string, ty: YType)
    requires Setting(dt, nullable, name, ty)
    ensures var r := MysqlValueToYdbForBulk(rt, RawNull, dt, nullable, Yql(name, ty.optional));
            if nullable then Sound(r, ty) else r.Failure?
  {
    OptionalSeen(name, ty.prim, ty.optional);
    if nullable { NullsSound(dt, name, ty.prim, ty.optional); }
  }

  /** The values that reach a column of their own type. */
  predicate KeepsType(rt: Runtime, raw: Raw, dt: string) {
    raw.RawNull? || (!IsUntranslated(dt) && Reads(rt, raw, dt))
  }

  lemma NonNullKeepsType(rt: Runtime, raw: Raw, dt: string, nullable: bool, name: string, ty: YType)
    requires Setting(dt, nullable, name, ty) && FromDriver(raw, dt) && dt != "bool"
    ensures MysqlValueToYdbForBulk(rt, raw, dt, nullable, Yql(name, ty.optional)).Success?
    ensures Sound(MysqlValueToYdbForBulk(rt, raw, dt, nullable, Yql(name, ty.optional)), ty) <==> KeepsType(rt, raw, dt)
  {
    DriverNeverSends(raw, dt);
    if IsUntranslated(dt) {
      UntranslatedAreText(rt, raw, dt, nullable, name, ty.prim, ty.optional);
    } else {
      NonNullSoundIffRead(rt, raw, dt, nullable, name, ty);
    }
  }

  /** Every value the driver delivers is converted, except NULL for a NOT NULL column.  The result has the
      column's type if and only if it is NULL, or neither a bit nor a decimal nor date text that no layout reads. */
  lemma ConversionIsTypeSound(rt: Runtime, raw: Raw, dt: string, nullable: bool, name: string, ty: YType)
    requires Setting(dt, nullable, name, ty)
    requires raw.RawNull? || FromDriver(raw, dt)
    ensures var r := MysqlValueToYdbForBulk(rt, raw, dt, nullable, Yql(name, ty.optional));
            && (r.Failure? <==> raw.RawNull? && !nullable)
            && (r.Success? ==> (HasType(r.value, ty) <==> KeepsType(rt, raw, dt)))
  {
    if raw.RawNull? {
      NullsSoundOrRefused(rt, dt, nullable, name, ty);
    } else if dt == "bool" {
      DriverNeverSends(raw, dt);
      BoolsSound(rt, raw, nullable, name, ty);
    } else {
      NonNullKeepsType(rt, raw, dt, nullable, name, ty);
    }
  }

  // AUTO_INCREMENT columns, which are Int64 whatever their MySQL type and never nullable.

  const SERIAL := YType(Int64, false)

  function SerialValue(rt: Runtime, raw: Raw, dt: string): Result<YValue> {
    MysqlValueToYdbForBulk(rt, raw, dt, false, Yql(PrimName(Int64), false))
  }

  lemma SerialIntegers(kind: IntKind, n: int, dt: string)
    requires IsDriverInt(kind, n)
    ensures HasType(IntForBulk(kind, n, dt, Yql(PrimName(Int64), false)), SERIAL) <==> InRange(Int64, n)
    ensures InRange(Int64, n) ==> IntForBulk(kind, n, dt, Yql(PrimName(Int64), false)) == IntValue(Int64, n)
  {
    IntegersSeen(Int64, false);
    OptionalSeen("Int64", Int64, false);
  }

  lemma SerialIsNoDate()
    ensures !IsYdbDate(Yql(PrimName(Int64), false))
  {
    Absent("Timestamp", 0, "Int64", false);
    Absent("Datetime", 0, "Int64", false);
    Absent("Date", 0, "Int64", false);
  }

  lemma SerialStrings(rt: Runtime, s: string, dt: string)
    ensures !HasType(StringForBulk(rt, s, dt, false, Yql(PrimName(Int64), false)), SERIAL)
  {
    OptionalSeen("Int64", Int64, false);
    SerialIsNoDate();
  }

  lemma SerialTimes(rt: Runtime, t: int, dt: string)
    ensures SerialValue(rt, RawTime(t), dt).Success? && !HasType(SerialValue(rt, RawTime(t), dt).value, SERIAL)
  {
    OptionalSeen("Int64", Int64, false);
    SerialIsNoDate();
  }

  /** A value other than NULL reaches an AUTO_INCREMENT column as an Int64 if and only if it is an integer below 2^63
      of a column that is not a TINYINT(1). */
  lemma SerialIsTypeSound(rt: Runtime, raw: Raw, dt: string)
    requires FromDriver(raw, dt)
    ensures SerialValue(rt, raw, dt).Success?
    ensures HasType(SerialValue(rt, raw, dt).value, SERIAL) <==> raw.RawInt? && dt != "bool" && InRange(Int64, raw.n)
  {
    OptionalSeen("Int64", Int64, false);
    DriverNeverSends(raw, dt);
    if dt == "bool" {
    } else if raw.RawInt? {
      SerialIntegers(raw.kind, raw.n, dt);
    } else if raw.RawBytes? || raw.RawStr? {
      SerialStrings(rt, raw.text, dt);
    } else if raw.RawTime? {
      SerialTimes(rt, raw.t, dt);
    }
  }

  /** Without a described column type, a nullable date before 1970 gets two Optional layers, and nothing else
      from a date column does. */
  lemma UntypedDatesNestOptional(rt: Runtime, s: string, dt: string)
    requires IsTemporal(dt)
    ensures var v, t := MysqlValueToYdbForBulk(rt, RawBytes(s), dt, true, "").value, ParseDateTimeToTime(rt, s, dt);
            v.OptionalOf? && (v.value.Null? <==> t.Some? && t.value < 0)
  {}
}
