/** YDB's column types: their names, and which values have them. */
module YdbTypes {
  import opened Values
  import opened SqlText

  datatype YType = YType(prim: Prim, optional: bool)

  function PrimName(p: Prim): string {
    match p
    case Bool => "Bool"
    case Int8 => "Int8"
    case Int16 => "Int16"
    case Int32 => "Int32"
    case Int64 => "Int64"
    case Uint8 => "Uint8"
    case Uint16 => "Uint16"
    case Uint32 => "Uint32"
    case Uint64 => "Uint64"
    case Float => "Float"
    case Double => "Double"
    case Date => "Date"
    case Datetime => "Datetime"
    case Timestamp => "Timestamp"
    case Utf8 => "Utf8"
    case Bytes => "String"
    case Decimal22 => "Decimal(22,9)"
  }

  /** The names under which YDB reports a primitive type: Text and Utf8 are one type. */
  predicate IsNameOf(name: string, p: Prim) {
    name == PrimName(p) || (p == Utf8 && name == "Text")
  }

  function Yql(name: string, optional: bool): string {
    if optional then "Optional<" + name + ">" else name
  }

  predicate IsBare(v: YValue, p: Prim) {
    match v
    case BoolValue(_) => p == Bool
    case IntValue(q, _) => p == q
    case RealValue(q, _) => p == q
    case TimeValue(q, _) => p == q
    case TextValue(_) => p == Utf8
    case BytesValue(_) => p == Bytes
    case _ => false
  }

  /** At most one Optional layer, and one exactly when the type has it. */
  predicate HasType(v: YValue, ty: YType) {
    if ty.optional then v == Null(ty.prim) || (v.OptionalOf? && IsBare(v.value, ty.prim))
    else IsBare(v, ty.prim)
  }

  predicate HasBarePrim(v: YValue) {
    !v.Null? && !v.OptionalOf?
  }

  function BarePrim(v: YValue): (p: Prim)
    requires HasBarePrim(v)
    ensures IsBare(v, p)
  {
    match v
    case BoolValue(_) => Bool
    case IntValue(q, _) => q
    case RealValue(q, _) => q
    case TimeValue(q, _) => q
    case TextValue(_) => Utf8
    case BytesValue(_) => Bytes
  }

  /** The one type a value has; an Optional of an Optional has none of a column. */
  function TypeOf(v: YValue): Option<YType> {
    if v.Null? then Some(YType(v.prim, true))
    else if HasBarePrim(v) then Some(YType(BarePrim(v), false))
    else if HasBarePrim(v.value) then Some(YType(BarePrim(v.value), true))
    else None
  }

  lemma TypeOfMeans(v: YValue, ty: YType)
    ensures HasType(v, ty) <==> TypeOf(v) == Some(ty)
  {}

  predicate IsYqlOf(yql: string, ty: YType) {
    yql == Yql(PrimName(ty.prim), ty.optional) || (ty.prim == Utf8 && yql == Yql("Text", ty.optional))
  }

  /** YDB takes a value for a column exactly if its type is the column's. */
  predicate FitsType(v: YValue, yql: string) {
    TypeOf(v).Some? && IsYqlOf(yql, TypeOf(v).value)
  }

  /** The type a name stands for. */
  function PrimOfName(name: string): Prim {
    match name
    case "Bool" => Bool
    case "Int8" => Int8
    case "Int16" => Int16
    case "Int32" => Int32
    case "Int64" => Int64
    case "Uint8" => Uint8
    case "Uint16" => Uint16
    case "Uint32" => Uint32
    case "Uint64" => Uint64
    case "Float" => Float
    case "Double" => Double
    case "Date" => Date
    case "Datetime" => Datetime
    case "Timestamp" => Timestamp
    case "String" => Bytes
    case "Decimal(22,9)" => Decimal22
    case _ => Utf8
  }

  lemma NamedOnce(name: string, p: Prim)
    requires IsNameOf(name, p)
    ensures PrimOfName(name) == p && !("Optional<" <= name)
  {
    if name == "Text" {
      assert PrimOfName("Text") == Utf8;
    } else {
      NameIsItsOwn(p);
    }
  }

  lemma NameIsItsOwn(p: Prim)
    ensures PrimOfName(PrimName(p)) == p && PrimName(p)[0] != 'O'
  {
    match p
    case Bool => case Int8 => case Int16 => case Int32 => case Int64 =>
    case Uint8 => case Uint16 => case Uint32 => case Uint64 =>
    case Float => case Double => case Date => case Datetime => case Timestamp =>
    case Utf8 => case Bytes => case Decimal22 =>
  }

  lemma OptionalApart(a: string, b: string, o: bool, o': bool)
    requires Yql(a, o) == Yql(b, o') && !("Optional<" <= a) && !("Optional<" <= b)
    ensures o == o' && a == b
  {
    if o { assert "Optional<" <= Yql(a, o); }
    if o' { assert "Optional<" <= Yql(b, o'); }
    if o && o' {
      assert Yql(a, o)[9..|a| + 9] == a && Yql(b, o')[9..|b| + 9] == b;
    }
  }

  /** A type name, with or without Optional, stands for one type. */
  lemma YqlDenotesOne(name: string, ty: YType, other: YType)
    requires IsNameOf(name, ty.prim) && IsYqlOf(Yql(name, ty.optional), other)
    ensures other == ty
  {
    var n := if Yql(name, ty.optional) == Yql(PrimName(other.prim), other.optional) then PrimName(other.prim) else "Text";
    NamedOnce(name, ty.prim);
    NamedOnce(n, other.prim);
    OptionalApart(name, n, ty.optional, other.optional);
  }

  lemma FitsTypeMeans(v: YValue, name: string, ty: YType)
    requires IsNameOf(name, ty.prim)
    ensures FitsType(v, Yql(name, ty.optional)) <==> HasType(v, ty)
  {
    TypeOfMeans(v, ty);
    if FitsType(v, Yql(name, ty.optional)) {
      YqlDenotesOne(name, ty, TypeOf(v).value);
    } else if HasType(v, ty) {
      assert IsYqlOf(Yql(name, ty.optional), ty);
    }
  }
}
