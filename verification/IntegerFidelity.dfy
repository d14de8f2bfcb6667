/** MySQL integers through normalization, DDL type and coercion. */
module IntegerFidelity {
  import opened Values
  import opened Substrings
  import opened ColumnTypes
  import opened Convert
  import opened YdbTypes
  import opened TypeSoundness

  const TWO31: nat := 0x8000_0000
  const TWO63: nat := 0x8000_0000_0000_0000

  /** MySQL's integer types. */
  datatype IntType = IntType(size: Size, unsigned: bool)
  datatype Size = Tiny | Small | Medium | Regular | Big

  function Stem(s: Size): string {
    match s
    case Tiny => "tiny"
    case Small => "small"
    case Medium => "medium"
    case Regular => ""
    case Big => "big"
  }

  function Bound(s: Size): int {
    match s
    case Tiny => 0x80
    case Small => 0x8000
    case Medium => 0x80_0000
    case Regular => TWO31
    case Big => TWO63
  }

  /** The values a column of the type can hold. */
  predicate CanHold(t: IntType, n: int) {
    if t.unsigned then 0 <= n < 2 * Bound(t.size) else -Bound(t.size) <= n < Bound(t.size)
  }

  /** COLUMN_TYPE without display width. */
  function Spelled(t: IntType): string {
    Stem(t.size) + if t.unsigned then "int unsigned" else "int"
  }

  function TypeKey(t: IntType): string {
    if t.size == Big then (if t.unsigned then "bigint unsigned" else "bigint")
    else if t.unsigned then "int unsigned" else "int"
  }

  lemma Nests(stem: string, s: string)
    ensures Contains(s, stem + "int unsigned") ==> Contains(s, "int unsigned")
  {
    ContainsSuffix(stem, "int unsigned");
    if Contains(s, stem + "int unsigned") { ContainsTrans(s, stem + "int unsigned", "int unsigned"); }
  }

  /** The five substrings looked for come down to one. */
  lemma UnsignedSpellingsNest(s: string)
    ensures SaysUnsigned(s) <==> Contains(s, "int unsigned")
    ensures Contains(s, "bigint unsigned") ==> Contains(s, "int unsigned")
  {
    Nests("big", s);
    Nests("medium", s);
    Nests("small", s);
    Nests("tiny", s);
    assert "big" + "int unsigned" == "bigint unsigned";
    assert "medium" + "int unsigned" == "mediumint unsigned";
    assert "small" + "int unsigned" == "smallint unsigned";
    assert "tiny" + "int unsigned" == "tinyint unsigned";
  }

  lemma UnsignedNormalizes(size: Size)
    ensures NormalizeMySQLType(Stem(size) + "int unsigned") == TypeKey(IntType(size, true))
  {
    var s := Stem(size) + "int unsigned";
    ContainsSuffix(Stem(size), "int unsigned");
    if size == Big {
      assert s == "bigint unsigned";
    } else {
      MissingChar(s, "bigint unsigned", 0);
    }
  }

  lemma NormalizeSigned(s: string)
    requires !Contains(s, "int unsigned")
    ensures "bigint" <= s ==> NormalizeMySQLType(s) == "bigint"
    ensures !("bigint" <= s) && !("tinyint(1)" <= s) && IsIntName(s) ==> NormalizeMySQLType(s) == "int"
  {
    UnsignedSpellingsNest(s);
  }

  lemma IntNamed(size: Size, rest: string)
    ensures var s := Stem(size) + "int" + rest; if size == Big then "bigint" <= s else !("bigint" <= s) && IsIntName(s)
    ensures size != Tiny ==> (Stem(size) + "int" + rest)[0] != 't'
  {
    var s := Stem(size) + "int" + rest;
    match size
    case Tiny => assert "tinyint" <= s && s[0] == 't';
    case Small => assert "smallint" <= s && s[0] == 's';
    case Medium => assert "mediumint" <= s && s[0] == 'm';
    case Regular => assert "int" <= s && s[0] == 'i';
    case Big => assert "bigint" <= s;
  }

  lemma SignedNormalizes(size: Size)
    ensures NormalizeMySQLType(Stem(size) + "int") == TypeKey(IntType(size, false))
  {
    var s := Stem(size) + "int";
    MissingChar(s, "int unsigned", 3);
    NormalizeSigned(s);
    IntNamed(size, "");
    assert s + "" == s;
  }

  // The YDB column created for an integer column: BigSerial, which is Int64, when it is AUTO_INCREMENT.

  function CreatedType(t: IntType, autoIncrement: bool, nullable: bool): YType {
    if autoIncrement then YType(Int64, false) else YType(CreatedPrim(TypeKey(t)), nullable)
  }

  function Transferred(rt: Runtime, t: IntType, autoIncrement: bool, nullable: bool, kind: IntKind, n: int)
    : Result<YValue>
  {
    var ty := CreatedType(t, autoIncrement, nullable);
    MysqlValueToYdbForBulk(rt, RawInt(kind, n), NormalizeMySQLType(Spelled(t)), nullable,
                           Yql(PrimName(ty.prim), ty.optional))
  }

  lemma SpelledNormalizes(t: IntType)
    ensures NormalizeMySQLType(Spelled(t)) == TypeKey(t)
  {
    if t.unsigned { UnsignedNormalizes(t.size); } else { SignedNormalizes(t.size); }
  }

  lemma CreatedHolds(t: IntType, n: int)
    requires CanHold(t, n)
    ensures IsInteger(CreatedPrim(TypeKey(t))) && InRange(CreatedPrim(TypeKey(t)), n)
  {}

  /** Every value of an integer column arrives in YDB as the same integer. */
  lemma IntegersArriveUnchanged(rt: Runtime, t: IntType, nullable: bool, kind: IntKind, n: int)
    requires CanHold(t, n) && IsDriverInt(kind, n)
    ensures Transferred(rt, t, false, nullable, kind, n) ==
            Success(Wrap(IntValue(CreatedPrim(TypeKey(t)), n), nullable))
  {
    var p := CreatedPrim(TypeKey(t));
    SpelledNormalizes(t);
    CreatedHolds(t, n);
    IntegersSound(kind, n, TypeKey(t), p, nullable);
    OptionalSeen(PrimName(p), p, nullable);
  }

  /** An AUTO_INCREMENT column, which is never nullable, keeps its integers exactly up to 2^63 - 1. */
  lemma SerialsArriveUnchanged(rt: Runtime, t: IntType, kind: IntKind, n: int)
    requires CanHold(t, n) && IsDriverInt(kind, n)
    ensures Transferred(rt, t, true, false, kind, n) == Success(IntValue(Int64, n)) <==> n < TWO63
  {
    SpelledNormalizes(t);
    IntegersSeen(Int64, false);
    OptionalSeen("Int64", Int64, false);
  }

  // Display widths.  Servers before 8.0.19 report them for every integer column, later ones for ZEROFILL.

  predicate IsWidth(w: string) {
    w != "" && forall i :: 0 <= i < |w| ==> '0' <= w[i] <= '9'
  }

  function WidthTail(w: string, zerofill: bool): string {
    "(" + w + if zerofill then ") unsigned zerofill" else ") unsigned"
  }

  /** "int(10) unsigned" and the like. */
  function UnsignedWithWidth(size: Size, w: string, zerofill: bool): string {
    Stem(size) + "int" + WidthTail(w, zerofill)
  }

  lemma WidthHidesSpace(size: Size, w: string, zerofill: bool)
    requires IsWidth(w)
    ensures !Pair(UnsignedWithWidth(size, w, zerofill), 't', ' ')
  {
    var head, tail := Stem(size) + "int", WidthTail(w, zerofill);
    assert ' ' !in head && 't' !in tail && tail[0] == '(';
    PairChars(head, 't', ' ');
    PairChars(tail, 't', ' ');
    PairConcat(head, tail, 't', ' ');
  }

  lemma NotBoolean(size: Size, w: string, zerofill: bool)
    requires IsWidth(w) && !(size == Tiny && w == "1")
    ensures !("tinyint(1)" <= UnsignedWithWidth(size, w, zerofill))
  {
    var s := UnsignedWithWidth(size, w, zerofill);
    if size == Tiny {
      assert |Stem(size) + "int"| == 7;
      assert s[8] == w[0];
      assert |w| > 1 ==> s[9] == w[1];
      assert |w| == 1 ==> w == [w[0]];
    } else {
      IntNamed(size, WidthTail(w, zerofill));
    }
  }

  /** A width hides that the type is unsigned. */
  lemma WidthsNormalize(size: Size, w: string, zerofill: bool)
    requires IsWidth(w) && !(size == Tiny && w == "1")
    ensures NormalizeMySQLType(UnsignedWithWidth(size, w, zerofill)) == SignedKey(size)
  {
    var s := UnsignedWithWidth(size, w, zerofill);
    WidthHidesSpace(size, w, zerofill);
    MissingPair(s, "int unsigned", 2);
    NormalizeSigned(s);
    NotBoolean(size, w, zerofill);
    IntNamed(size, WidthTail(w, zerofill));
  }

  function SignedPrim(size: Size): Prim {
    if size == Big then Int64 else Int32
  }

  function SignedKey(size: Size): string {
    if size == Big then "bigint" else "int"
  }

  function TransferredWithWidth(rt: Runtime, size: Size, w: string, zerofill: bool, nullable: bool, kind: IntKind, n: int)
    : Result<YValue>
  {
    MysqlValueToYdbForBulk(rt, RawInt(kind, n), NormalizeMySQLType(UnsignedWithWidth(size, w, zerofill)), nullable,
                           Yql(PrimName(SignedPrim(size)), nullable))
  }

  lemma Int32Holds(nullable: bool, kind: IntKind, n: int)
    requires IsDriverInt(kind, n) && 0 <= n < 2 * TWO31
    ensures IntForBulk(kind, n, "int", Yql("Int32", nullable)) == Wrap(IntValue(Int32, n), nullable) <==> n < TWO31
  {
    IntegersSeen(Int32, nullable);
    OptionalSeen("Int32", Int32, nullable);
    if n < TWO31 { IntegersSound(kind, n, "int", Int32, nullable); }
  }

  lemma SignedWraps(n: int)
    requires TWO31 <= n < 2 * TWO31
    ensures Signed32(n) == n - 2 * TWO31
  {}

  lemma NoCoercion(nullable: bool, n: int)
    requires TWO31 <= n
    ensures CoerceInt(n, Yql("Int32", nullable)).None?
  {
    IntegersSeen(Int32, nullable);
  }

  lemma UncoercedInt(n: int, yql: string)
    requires TWO31 <= n < 2 * TWO31 && CoerceInt(n, yql).None?
    ensures IntForBulk(I64, n, "int", yql) == Wrap(IntValue(Int32, n - 2 * TWO31), IsOptional(yql))
  {
    SignedWraps(n);
  }

  lemma Int32Wraps(nullable: bool, n: int)
    requires TWO31 <= n < 2 * TWO31
    ensures IntForBulk(I64, n, "int", Yql("Int32", nullable)) == Wrap(IntValue(Int32, n - 2 * TWO31), nullable)
  {
    NoCoercion(nullable, n);
    UncoercedInt(n, Yql("Int32", nullable));
    OptionalSeen("Int32", Int32, nullable);
  }

  lemma Int64Holds(nullable: bool, kind: IntKind, n: int)
    requires IsDriverInt(kind, n) && 0 <= n
    ensures IntForBulk(kind, n, "bigint", Yql("Int64", nullable)) == Wrap(IntValue(Int64, n), nullable) <==> n < TWO63
  {
    IntegersSeen(Int64, nullable);
    OptionalSeen("Int64", Int64, nullable);
  }

  lemma WidthTransfers(rt: Runtime, size: Size, w: string, zerofill: bool, nullable: bool, kind: IntKind, n: int)
    requires IsWidth(w) && !(size == Tiny && w == "1")
    ensures TransferredWithWidth(rt, size, w, zerofill, nullable, kind, n) ==
            Success(IntForBulk(kind, n, SignedKey(size), Yql(PrimName(SignedPrim(size)), nullable)))
  {
    WidthsNormalize(size, w, zerofill);
    OptionalSeen(PrimName(SignedPrim(size)), SignedPrim(size), nullable);
  }

  /** With a width, an unsigned value arrives unchanged exactly when the signed type holds it; an int above
      that arrives as n - 2^32. */
  lemma WidthsLoseTheUpperHalf(rt: Runtime, size: Size, w: string, zerofill: bool, nullable: bool, kind: IntKind, n: int)
    requires IsWidth(w) && !(size == Tiny && w == "1")
    requires CanHold(IntType(size, true), n) && IsDriverInt(kind, n)
    ensures n < (if size == Big then TWO63 else TWO31) <==>
              TransferredWithWidth(rt, size, w, zerofill, nullable, kind, n) ==
              Success(Wrap(IntValue(SignedPrim(size), n), nullable))
    ensures size == Regular && kind == I64 && n >= TWO31 ==>
              TransferredWithWidth(rt, size, w, zerofill, nullable, kind, n) ==
              Success(Wrap(IntValue(Int32, n - 2 * TWO31), nullable))
  {
    WidthTransfers(rt, size, w, zerofill, nullable, kind, n);
    if size == Big { Int64Holds(nullable, kind, n); } else { Int32Holds(nullable, kind, n); }
    if size == Regular && n >= TWO31 { Int32Wraps(nullable, n); }
  }

  /** The type key of an integer column, which may show a display width. */
  function ColumnKey(t: IntType, width: bool): string {
    if width && t.unsigned then SignedKey(t.size) else TypeKey(t)
  }

  lemma HighIsNoInt32(kind: IntKind, n: int, optional: bool)
    requires kind != I64 && IsDriverInt(kind, n) && TWO31 <= n
    ensures !HasType(IntForBulk(kind, n, "int", Yql("Int32", optional)), YType(Int32, optional))
  {
    IntegersSeen(Int32, optional);
    OptionalSeen("Int32", Int32, optional);
  }

  lemma HighIsNoInt64(kind: IntKind, n: int, optional: bool)
    requires IsDriverInt(kind, n) && TWO63 <= n
    ensures !HasType(IntForBulk(kind, n, "bigint", Yql("Int64", optional)), YType(Int64, optional))
  {
    IntegersSeen(Int64, optional);
    OptionalSeen("Int64", Int64, optional);
  }

  lemma Int32KeepsTheBits(kind: IntKind, n: int, optional: bool)
    requires 0 <= n < 2 * TWO31 && IsDriverInt(kind, n)
    ensures var v := IntForBulk(kind, n, "int", Yql("Int32", optional));
            HasType(v, YType(Int32, optional)) ==> v == Wrap(IntValue(Int32, Signed32(n)), optional)
  {
    if n < TWO31 {
      IntegersSound(kind, n, "int", Int32, optional);
    } else if kind == I64 {
      Int32Wraps(optional, n);
      SignedWraps(n);
    } else {
      HighIsNoInt32(kind, n, optional);
    }
  }

  /** A value of an unsigned column with a width, if YDB takes it at all, arrives as the signed type holds its bits. */
  lemma WidthsKeepTheBits(kind: IntKind, n: int, size: Size, optional: bool)
    requires CanHold(IntType(size, true), n) && IsDriverInt(kind, n)
    ensures var p := SignedPrim(size); var v := IntForBulk(kind, n, SignedKey(size), Yql(PrimName(p), optional));
            HasType(v, YType(p, optional)) ==> v == Wrap(IntValue(p, if p == Int32 then Signed32(n) else n), optional)
  {
    if size != Big {
      Int32KeepsTheBits(kind, n, optional);
    } else if n < TWO63 {
      IntegersSound(kind, n, "bigint", Int64, optional);
    } else {
      HighIsNoInt64(kind, n, optional);
    }
  }

  // Unsigned coercion of signed values.

  function Clamp(n: int, high: int): int {
    if n < 0 then 0 else if n > high then high else n
  }

  /** Into an unsigned column any int64 is clamped: the order of two values is never reversed. */
  lemma UnsignedCoercionClamps(p: Prim, optional: bool, m: int, n: int)
    requires p == Uint32 || p == Uint64
    requires InRange(Int64, m) && InRange(Int64, n) && m <= n
    ensures var yql := Yql(PrimName(p), optional);
            var a, b := CoerceInt(m, yql), CoerceInt(n, yql);
            && a.Some? && b.Some? && a.value.IntValue? && b.value.IntValue?
            && a.value.prim == p && InRange(p, a.value.n)
            && a.value.n <= b.value.n
            && (a.value.n == m <==> InRange(p, m))
            && a.value.n == Clamp(m, if p == Uint32 then 0xFFFF_FFFF else 0xFFFF_FFFF_FFFF_FFFF)
  {
    IntegersSeen(p, optional);
  }

  // Text columns.

  lemma TextPrefixIsNoOther(s: string)
    requires HasTextPrefix(s)
    ensures !("bigint" <= s) && !("tinyint(1)" <= s) && !IsIntName(s)
    ensures !("float" <= s) && !("double" <= s) && !("real" <= s)
    ensures !("datetime" <= s) && !("timestamp" <= s) && !("date" <= s) && !("year" <= s)
  {
    assert s[0] in "cvtjes" && (s[0] == 't' ==> s[1] == 'e') && (s[0] == 's' ==> s[1] == 'e');
  }

  /** A column spelled as a text type is taken for text exactly when its labels do not mention "int unsigned". */
  lemma LabelsMayPassForIntegers(s: string)
    requires HasTextPrefix(s)
    ensures NormalizeMySQLType(s) == "text" <==> !Contains(s, "int unsigned")
  {
    TextPrefixIsNoOther(s);
    UnsignedSpellingsNest(s);
  }

  lemma AnEnumTakenForAnInteger()
    ensures NormalizeMySQLType("enum('int unsigned')") == "int unsigned"
  {
    ContainsAt("enum('int unsigned')", "int unsigned", 6);
    MissingChar("enum('int unsigned')", "bigint unsigned", 0);
  }
}
