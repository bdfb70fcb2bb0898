/** The part of a TOML document tree that the directory parser looks at:
    a value can be viewed as a table of named values or as a string, and
    every other kind of TOML value (integer, float, boolean, datetime, array)
    is one undistinguished `Other`. */
module TomlValue {
  import opened Wrappers

  datatype Value =
    | Table(entries: map<string, Value>)
    | Str(text: string)
    | Other

  /** `Value::as_table` */
  function AsTable(v: Value): (r: Option<map<string, Value>>)
  {
    if v.Table? then Some(v.entries) else None
  }

  /** `Value::as_str` */
  function AsStr(v: Value): (r: Option<string>)
  {
    if v.Str? then Some(v.text) else None
  }

  /** `Table::get`: the value stored under `key`, if any. */
  function Get(table: map<string, Value>, key: string): (r: Option<Value>)
  {
    if key in table then Some(table[key]) else None
  }
}
