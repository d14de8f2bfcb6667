/** The structure of a table as read from information_schema. */
module TableSchema {

  datatype Column = Column(name: string, dataType: string, nullable: bool, primaryKey: bool, autoIncrement: bool)

  datatype IndexInfo = IndexInfo(name: string, columns: seq<string>, unique: bool)

  datatype TableMeta = TableMeta(
    name: string,
    columns: seq<Column>,
    pkCols: seq<string>,
    indexes: seq<IndexInfo>)
}
