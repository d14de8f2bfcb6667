/** From a MySQL COLUMN_TYPE to the type of the YDB column created for it. */
module ColumnTypes {
  import opened Substrings

  /** The type key of a COLUMN_TYPE such as "bigint unsigned", "int(11)" or "varchar(255)". */
  function NormalizeMySQLType(t: string): string {
    if Contains(t, "bigint unsigned") then "bigint unsigned"
    else if SaysUnsigned(t) then "int unsigned"
    else if "bigint" <= t then "bigint"
    else if t == "tinyint(1)" || "tinyint(1)" <= t then "bool"
    else if IsIntName(t) then "int"
    else if "float" <= t then "float"
    else if "double" <= t || "real" <= t then "double"
    else if "datetime" <= t then "datetime"
    else if "timestamp" <= t then "timestamp"
    else if "date" <= t then "date"
    else if "year" <= t then "year"
    else if HasTextPrefix(t) then "text"
    else if "binary" <= t || "varbinary" <= t || "blob" <= t then "bytes"
    else if "bit" <= t then "bit"
    else if "decimal" <= t || "numeric" <= t then "decimal"
    else "text"
  }

  predicate SaysUnsigned(t: string) {
    || Contains(t, "int unsigned") || Contains(t, "mediumint unsigned")
    || Contains(t, "smallint unsigned") || Contains(t, "tinyint unsigned")
  }

  predicate IsIntName(t: string) {
    "int" <= t || "mediumint" <= t || "smallint" <= t || "tinyint" <= t
  }

  predicate HasTextPrefix(t: string) {
    "char" <= t || "varchar" <= t || "text" <= t || "json" <= t || "enum" <= t || "set" <= t
  }

  /** The YQL type name the DDL writes for a type key. */
  function YqlBase(dt: string): string {
    match dt
    case "bool" => "Bool"
    case "int" => "Int32"
    case "mediumint" => "Int32"
    case "smallint" => "Int32"
    case "tinyint" => "Int32"
    case "bigint" => "Int64"
    case "int unsigned" => "Uint32"
    case "mediumint unsigned" => "Uint32"
    case "smallint unsigned" => "Uint32"
    case "tinyint unsigned" => "Uint32"
    case "bigint unsigned" => "Uint64"
    case "float" => "Float"
    case "double" => "Double"
    case "real" => "Double"
    case "date" => "Date"
    case "datetime" => "Timestamp"
    case "timestamp" => "Timestamp"
    case "year" => "Uint16"
    case "binary" => "String"
    case "varbinary" => "String"
    case "tinyblob" => "String"
    case "blob" => "String"
    case "mediumblob" => "String"
    case "longblob" => "String"
    case "bytes" => "String"
    case "bit" => "Uint64"
    case "decimal" => "Decimal(22, 9)"
    case "numeric" => "Decimal(22, 9)"
    case _ => "Text"
  }

  function MysqlDataTypeToYql(dt: string, nullable: bool): string {
    if nullable then "Optional<" + YqlBase(dt) + ">" else YqlBase(dt)
  }
}
