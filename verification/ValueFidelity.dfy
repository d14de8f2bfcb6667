/** What becomes of values other than integers: booleans, floats, zero dates, blobs. */
module ValueFidelity {
  import opened Values
  import opened SqlText
  import opened Substrings
  import opened ColumnTypes
  import opened Convert
  import opened YdbTypes
  import opened TypeSoundness
  import opened IntegerFidelity

  lemma TinyintOneNormalizes(s: string)
    requires "tinyint(1)" <= s && !Contains(s, "int unsigned")
    ensures NormalizeMySQLType(s) == "bool"
  {
    UnsignedSpellingsNest(s);
    assert s[0] == 't';
  }

  lemma BoolsArrive(rt: Runtime, kind: IntKind, n: int, nullable: bool, optional: bool)
    ensures MysqlValueToYdbForBulk(rt, RawInt(kind, n), "bool", nullable, Yql("Bool", optional)) ==
            Success(Wrap(BoolValue(n != 0), optional))
  {
    OptionalSeen("Bool", Bool, optional);
  }

  /** TINYINT(1) is a boolean column, and a value is true exactly when it is not zero. */
  lemma TinyintOneIsBoolean(rt: Runtime, kind: IntKind, n: int, nullable: bool, optional: bool)
    ensures MysqlValueToYdbForBulk(rt, RawInt(kind, n), NormalizeMySQLType("tinyint(1)"), nullable, Yql("Bool", optional)) ==
            Success(Wrap(BoolValue(n != 0), optional))
  {
    MissingChar("tinyint(1)", "int unsigned", 3);
    TinyintOneNormalizes("tinyint(1)");
    BoolsArrive(rt, kind, n, nullable, optional);
  }

  /** A float of either width arrives as the number it was. */
  lemma FloatsArriveUnchanged(rt: Runtime, raw: Raw, dt: string, nullable: bool, p: Prim, optional: bool)
    requires raw.RawF32? || raw.RawF64?
    requires p == if raw.RawF32? then Float else Double
    ensures MysqlValueToYdbForBulk(rt, raw, dt, nullable, Yql(PrimName(p), optional)) ==
            Success(Wrap(RealValue(p, raw.x), optional))
  {
    OptionalSeen(PrimName(p), p, optional);
  }

  lemma Untrimmed(s: string)
    requires s != "" && !IsBlank(s[0]) && !IsBlank(s[|s| - 1])
    ensures TrimRight(TrimLeft(s)) == s
  {}

  lemma ZeroDateIsRead(rt: Runtime, s: string, dt: string)
    requires s == "0000-00-00" || s == "0000-00-00 00:00:00"
    requires IsTemporal(dt)
    ensures ParseDateTimeToTime(rt, s, dt) == Some(ZERO_TIME)
  {
    Untrimmed(s);
  }

  /** Date text that is read keeps its instant at the column's precision; before 1970 it becomes NULL where the
      YDB column allows it and 1970-01-01 elsewhere. */
  lemma DateTextArrives(rt: Runtime, s: string, t: int, dt: string, nullable: bool, p: Prim, optional: bool)
    requires IsTemporal(dt) && ParseDateTimeToTime(rt, s, dt) == Some(t)
    requires p in {Date, Datetime, Timestamp} && (nullable ==> optional)
    ensures MysqlValueToYdbForBulk(rt, RawBytes(s), dt, nullable, Yql(PrimName(p), optional)) ==
            Success(if t >= 0 then Wrap(TimeOf(p, t), optional) else if optional then Null(p) else TimeOf(p, 0))
  {
    ReadDatesArrive(rt, s, dt, nullable, p, optional);
    InstantsSound(t, nullable, p, optional);
    OptionalSeen(PrimName(p), p, optional);
  }

  /** MySQL's zero dates without fraction become NULL where the YDB column allows it and 1970-01-01 elsewhere. */
  lemma ZeroDates(rt: Runtime, s: string, dt: string, nullable: bool, p: Prim, optional: bool)
    requires s == "0000-00-00" || s == "0000-00-00 00:00:00"
    requires IsTemporal(dt) && p in {Date, Datetime, Timestamp} && (nullable ==> optional)
    ensures MysqlValueToYdbForBulk(rt, RawBytes(s), dt, nullable, Yql(PrimName(p), optional)) ==
            Success(if optional then Null(p) else TimeOf(p, 0))
  {
    ZeroDateIsRead(rt, s, dt);
    DateTextArrives(rt, s, ZERO_TIME, dt, nullable, p, optional);
  }

  /** The layouts are tried in order and the first that fits decides. */
  lemma {:induction false} FirstLayoutDecides(rt: Runtime, layouts: seq<string>, s: string)
    ensures FirstParse(rt, layouts, s).None? <==> forall i :: 0 <= i < |layouts| ==> rt.parse(layouts[i], s).None?
    ensures FirstParse(rt, layouts, s).Some? ==>
              exists i :: 0 <= i < |layouts| && FirstParse(rt, layouts, s) == rt.parse(layouts[i], s) &&
                forall j :: 0 <= j < i ==> rt.parse(layouts[j], s).None?
  {
    if layouts != [] && rt.parse(layouts[0], s).None? {
      FirstLayoutDecides(rt, layouts[1..], s);
      assert forall i :: 0 < i < |layouts| ==> layouts[i] == layouts[1..][i - 1];
      if FirstParse(rt, layouts[1..], s).Some? {
        var i :| 0 <= i < |layouts| - 1 && FirstParse(rt, layouts[1..], s) == rt.parse(layouts[1..][i], s) &&
                 forall j :: 0 <= j < i ==> rt.parse(layouts[1..][j], s).None?;
        assert rt.parse(layouts[i + 1], s) == FirstParse(rt, layouts, s);
      }
    }
  }

  function Layouts(dt: string): seq<string> {
    if dt == "date" then DATE_LAYOUTS else TIME_LAYOUTS
  }

  /** Which date text is read: blanks, the two zero dates without fraction, and what fits a layout. */
  lemma DateTextIsReadIff(rt: Runtime, text: string, dt: string)
    requires IsTemporal(dt)
    ensures var s := TrimRight(TrimLeft(text));
            ParseDateTimeToTime(rt, text, dt).Some? <==>
              s in {"", "0000-00-00", "0000-00-00 00:00:00"} ||
              exists i :: 0 <= i < |Layouts(dt)| && rt.parse(Layouts(dt)[i], s).Some?
  {
    FirstLayoutDecides(rt, Layouts(dt), TrimRight(TrimLeft(text)));
  }

  const FRACTIONAL_ZERO := "0000-00-00 00:00:00.000000"

  lemma FractionalZeroIsUnread(rt: Runtime, dt: string)
    requires dt == "datetime" || dt == "timestamp"
    requires forall i :: 0 <= i < |TIME_LAYOUTS| ==> rt.parse(TIME_LAYOUTS[i], FRACTIONAL_ZERO).None?
    ensures ParseDateTimeToTime(rt, FRACTIONAL_ZERO, dt).None?
  {
    Untrimmed(FRACTIONAL_ZERO);
    FirstLayoutDecides(rt, TIME_LAYOUTS, FRACTIONAL_ZERO);
  }

  /** The zero date of a DATETIME(6): since no layout has a month 00, it goes to a date column as Text. */
  lemma FractionalZeroDateIsText(rt: Runtime, dt: string, nullable: bool, p: Prim, optional: bool)
    requires dt == "datetime" || dt == "timestamp"
    requires p in {Date, Datetime, Timestamp}
    requires forall i :: 0 <= i < |TIME_LAYOUTS| ==> rt.parse(TIME_LAYOUTS[i], FRACTIONAL_ZERO).None?
    ensures MysqlValueToYdbForBulk(rt, RawBytes(FRACTIONAL_ZERO), dt, nullable, Yql(PrimName(p), optional)) ==
            Success(Wrap(TextValue(rt.repair(FRACTIONAL_ZERO)), optional))
  {
    FractionalZeroIsUnread(rt, dt);
    OptionalSeen(PrimName(p), p, optional);
    UnreadDatesAreText(rt, FRACTIONAL_ZERO, dt, nullable, p, optional);
  }

  /** The blob types that are not spelled BLOB. */
  predicate IsSizedBlob(t: string) {
    t == "tinyblob" || t == "mediumblob" || t == "longblob"
  }

  /** Not a prefix, because the texts differ at i. */
  lemma Differs(p: string, s: string, i: nat)
    requires i < |p| && i < |s| && p[i] != s[i]
    ensures !(p <= s)
  {}

  /** Which prefixes a first letter rules out. */
  lemma FirstLetterDecides(s: string)
    requires s != ""
    ensures s[0] != 'b' ==> !("bigint" <= s) && !("binary" <= s) && !("blob" <= s) && !("bit" <= s)
    ensures s[0] != 'd' ==> !("double" <= s) && !("datetime" <= s) && !("date" <= s) && !("decimal" <= s)
    ensures s[0] != 't' ==> !("tinyint(1)" <= s) && !("tinyint" <= s) && !("timestamp" <= s)
    ensures s[0] != 'i' ==> !("int" <= s)
    ensures s[0] != 'm' ==> !("mediumint" <= s)
    ensures s[0] != 's' ==> !("smallint" <= s)
    ensures s[0] != 'f' ==> !("float" <= s)
    ensures s[0] != 'r' ==> !("real" <= s)
    ensures s[0] != 'y' ==> !("year" <= s)
    ensures s[0] != 'v' ==> !("varbinary" <= s)
    ensures s[0] != 'n' ==> !("numeric" <= s)
    ensures s[0] == 'b' ==> !HasTextPrefix(s)
  {}

  /** The prefixes that lead to something other than text. */
  predicate HasOtherPrefix(s: string) {
    || "bigint" <= s || "tinyint(1)" <= s || IsIntName(s) || "float" <= s || "double" <= s || "real" <= s
    || "datetime" <= s || "timestamp" <= s || "date" <= s || "year" <= s || "binary" <= s || "varbinary" <= s
    || "blob" <= s || "bit" <= s || "decimal" <= s || "numeric" <= s
  }

  lemma TextIsTheDefault(s: string)
    requires !Contains(s, "int unsigned") && !HasOtherPrefix(s)
    ensures NormalizeMySQLType(s) == "text"
  {
    UnsignedSpellingsNest(s);
  }

  predicate BlobShape(s: string) {
    |s| >= 8 && ((s[0] == 't' && s[2] == 'n' && s[4] == 'b') || (s[0] == 'm' && s[6] == 'b') || s[0] == 'l')
  }

  lemma NoOtherPrefix(s: string)
    requires BlobShape(s)
    ensures !HasOtherPrefix(s)
  {
    FirstLetterDecides(s);
    if s[0] == 't' {
      Differs("tinyint", s, 4);
      Differs("tinyint(1)", s, 4);
      Differs("timestamp", s, 2);
    } else if s[0] == 'm' {
      Differs("mediumint", s, 6);
    }
  }

  lemma ShapedNormalizesToText(s: string)
    requires BlobShape(s) && ' ' !in s
    ensures NormalizeMySQLType(s) == "text"
  {
    MissingChar(s, "int unsigned", 3);
    NoOtherPrefix(s);
    TextIsTheDefault(s);
  }

  lemma SizedBlobsNormalizeToText(t: string)
    requires IsSizedBlob(t)
    ensures NormalizeMySQLType(t) == "text"
  {
    assert BlobShape(t) && ' ' !in t;
    ShapedNormalizesToText(t);
  }

  lemma TextKeepsRepaired(rt: Runtime, s: string, nullable: bool, optional: bool)
    ensures MysqlValueToYdbForBulk(rt, RawBytes(s), "text", nullable, Yql("Utf8", optional)) ==
            Success(Wrap(TextValue(rt.repair(s)), optional))
  {
    StringsSound(rt, s, "text", nullable, "Utf8", Utf8, optional);
    OptionalSeen("Utf8", Utf8, optional);
  }

  /** TINYBLOB, MEDIUMBLOB and LONGBLOB go into Text columns: the bytes survive exactly when they need no UTF-8
      repair. */
  lemma SizedBlobsKeepOnlyText(rt: Runtime, t: string, s: string, nullable: bool, optional: bool)
    requires IsSizedBlob(t)
    ensures rt.repair(s) == s <==>
              MysqlValueToYdbForBulk(rt, RawBytes(s), NormalizeMySQLType(t), nullable, Yql("Utf8", optional)) ==
              Success(Wrap(TextValue(s), optional))
  {
    SizedBlobsNormalizeToText(t);
    TextKeepsRepaired(rt, s, nullable, optional);
  }

  lemma BlobsNormalizeToBytes(s: string)
    requires "blob" <= s && ' ' !in s
    ensures NormalizeMySQLType(s) == "bytes"
  {
    MissingChar(s, "int unsigned", 3);
    UnsignedSpellingsNest(s);
    assert s[0] == 'b' && s[1] == 'l';
    Differs("bigint", s, 1);
    FirstLetterDecides(s);
  }

  lemma BytesKeepThemselves(rt: Runtime, s: string, nullable: bool, optional: bool)
    ensures MysqlValueToYdbForBulk(rt, RawBytes(s), "bytes", nullable, Yql("String", optional)) ==
            Success(Wrap(BytesValue(s), optional))
  {
    StringsSound(rt, s, "bytes", nullable, "String", Bytes, optional);
    OptionalSeen("String", Bytes, optional);
  }

  /** BLOB columns keep their bytes. */
  lemma BlobsArriveUnchanged(rt: Runtime, s: string, nullable: bool, optional: bool)
    ensures MysqlValueToYdbForBulk(rt, RawBytes(s), NormalizeMySQLType("blob"), nullable, Yql("String", optional)) ==
            Success(Wrap(BytesValue(s), optional))
  {
    BlobsNormalizeToBytes("blob");
    BytesKeepThemselves(rt, s, nullable, optional);
  }
}
