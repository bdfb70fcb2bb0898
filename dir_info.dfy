/** Directory declarations of a package manifest (`src/config/dir_info.rs`).

    Each declaration is a TOML table with a required `dir` string and the
    optional strings `user`, `group`, `mode` (octal) and `caps`. `New`
    validates a whole list of them into `DirInfo` records, failing on the
    first bad entry; `GenerateRpmFileOptions` turns one record into the
    attributes the RPM backend needs to declare an owned, empty directory. */
module DirInfo {
  import opened Wrappers
  import opened TomlValue
  import opened Octal

  /** 0o755, the mode of a declaration that gives none. */
  const DEFAULT_MODE: U16 := 0x1ED

  /** 0o777, the largest set of permission bits. */
  const PERMISSION_MAX: U16 := 0x1FF

  /** The diagnostic of the RPM backend when it rejects a capability string;
      its content is the backend's business. */
  datatype BackendError = BackendError(message: string)

  /** The variants of the crate's `ConfigError` that this component raises.
      Every one of them carries the index of the offending declaration. */
  datatype ConfigError =
    | DirsWrongBaseType(idx: nat)
    | DirsMissing(idx: nat, field: string)
    | DirsWrongType(idx: nat, field: string, expected: string)
    | DirsInvalidCaps(idx: nat, cause: BackendError)

  /** One validated directory declaration. */
  datatype DirInfo = DirInfo(
    idx: nat,
    dir: string,
    user: Option<string>,
    group: Option<string>,
    mode: U16,
    caps: Option<string>)

  // ---------------------------------------------------------------------
  // Parsing one declaration
  // ---------------------------------------------------------------------

  /** `mode & 0o777` on a `u16`: only the nine permission bits survive.
      For a non-negative number, keeping the low nine bits is the remainder
      modulo 0o1000. */
  function PermissionBits(v: U16): (m: U16)
    ensures m <= PERMISSION_MAX
    ensures v <= PERMISSION_MAX ==> m == v
    ensures (v - m) % 0x200 == 0
  {
    v % 0x200
  }

  /** Masking a parsed mode keeps exactly its last three octal digits:
      "7777" and "0777" both give 0o777, "1750" gives 0o750. */
  lemma {:induction false} PermissionBitsLastThreeDigits(s: string)
    requires IsOctalU16(s) && |Unsigned(s)| >= 3
    ensures var u := Unsigned(s);
      AllOctal(u[|u| - 3..]) &&
      PermissionBits(FromStrRadix8(s).value) == OctalValue(u[|u| - 3..])
  {
    var u := Unsigned(s);
    var high, low := u[..|u| - 3], u[|u| - 3..];
    assert u == high + low;
    assert forall i :: 0 <= i < |high| ==> high[i] == u[i];
    assert forall i :: 0 <= i < |low| ==> low[i] == u[|u| - 3 + i];
    OctalValueAppend(high, low);
    OctalValueBound(low);
    assert Pow8(3) == 0x200;
    LowNineBits(OctalValue(u), OctalValue(high), OctalValue(low));
  }

  lemma {:induction false} LowNineBits(v: nat, q: nat, r: nat)
    requires v == q * 0x200 + r && r < 0x200
    ensures v % 0x200 == r
  {
  }

  /** An optional string field: absent gives `None`, a string gives its text,
      anything else is `DirsWrongType(idx, key, "string")`. */
  function OptionalStr(table: map<string, Value>, key: string, idx: nat)
    : (r: Result<Option<string>, ConfigError>)
    ensures key !in table ==> r == Ok(None)
    ensures key in table ==> (r.Ok? <==> table[key].Str?)
    ensures r.Ok? && key in table ==> r.value == Some(table[key].text)
    ensures r.Err? ==> r.error == DirsWrongType(idx, key, "string")
  {
    match Get(table, key)
    case None => Ok(None)
    case Some(v) =>
      var s :- AsStr(v).OkOr(DirsWrongType(idx, key, "string"));
      Ok(Some(s))
  }

  /** The `mode` field: absent gives 0o755; otherwise it must be a string
      that parses as an octal `u16`, of which the permission bits are kept. */
  function ParseMode(table: map<string, Value>, idx: nat): (r: Result<U16, ConfigError>)
    ensures r.Ok? ==> r.value <= PERMISSION_MAX
    ensures "mode" !in table ==> r == Ok(DEFAULT_MODE)
    ensures "mode" in table ==>
      (r.Ok? <==> table["mode"].Str? && IsOctalU16(table["mode"].text))
    ensures r.Ok? && "mode" in table ==>
      r.value == OctalValue(Unsigned(table["mode"].text)) % 0x200
    ensures r.Err? ==>
      r.error == DirsWrongType(idx, "mode", if table["mode"].Str? then "oct-string" else "string")
  {
    match Get(table, "mode")
    case None => Ok(DEFAULT_MODE)
    case Some(value) =>
      var modestr :- AsStr(value).OkOr(DirsWrongType(idx, "mode", "string"));
      var mode :- FromStrRadix8(modestr).OkOr(DirsWrongType(idx, "mode", "oct-string"));
      Ok(PermissionBits(mode))
  }

  /** The body of the loop in `DirInfo::new`: validate the declaration at
      position `idx`, checking that it is a table and then, in this order,
      `dir`, `user`, `group`, `mode` and `caps`. */
  function ParseEntry(idx: nat, value: Value): (r: Result<DirInfo, ConfigError>)
    ensures r.Err? ==> r.error.idx == idx
    ensures r.Ok? ==> r.value.idx == idx && r.value.mode <= PERMISSION_MAX
    ensures r.Ok? ==>
      value.Table? && "dir" in value.entries && value.entries["dir"] == Str(r.value.dir)
  {
    var table :- AsTable(value).OkOr(DirsWrongBaseType(idx));
    var dirValue :- Get(table, "dir").OkOr(DirsMissing(idx, "dir"));
    var dir :- AsStr(dirValue).OkOr(DirsWrongType(idx, "dest", "string"));
    var user :- OptionalStr(table, "user", idx);
    var group :- OptionalStr(table, "group", idx);
    var mode :- ParseMode(table, idx);
    var caps :- OptionalStr(table, "caps", idx);
    Ok(DirInfo(idx, dir, user, group, mode, caps))
  }

  // ---------------------------------------------------------------------
  // A declarative reading of one declaration: each field judged on its own
  // ---------------------------------------------------------------------

  /** The fields of a declaration, in the order they are checked. */
  const FIELDS: seq<string> := ["dir", "user", "group", "mode", "caps"]

  /** Whether `field` of `table`, looked at in isolation, is acceptable. */
  predicate FieldAccepted(table: map<string, Value>, field: string) {
    if field == "dir" then
      "dir" in table && table["dir"].Str?
    else if field == "mode" then
      "mode" !in table || (table["mode"].Str? && IsOctalU16(table["mode"].text))
    else
      field !in table || table[field].Str?
  }

  /** The diagnostic for a `field` that is not acceptable. The wrong-type
      error for `dir` names it `dest`. */
  function FieldError(idx: nat, table: map<string, Value>, field: string): ConfigError {
    if field == "dir" then
      if "dir" !in table then DirsMissing(idx, "dir") else DirsWrongType(idx, "dest", "string")
    else if field == "mode" && "mode" in table && table["mode"].Str? then
      DirsWrongType(idx, "mode", "oct-string")
    else
      DirsWrongType(idx, field, "string")
  }

  /** The text of an optional string field that is acceptable. */
  function OptionalText(table: map<string, Value>, field: string): Option<string>
    requires field !in table || table[field].Str?
  {
    if field in table then Some(table[field].text) else None
  }

  /** A declaration that is not a table is rejected before anything else. */
  lemma {:induction false} ParseEntryNotTable(idx: nat, value: Value)
    requires !value.Table?
    ensures ParseEntry(idx, value) == Err(DirsWrongBaseType(idx))
  {
  }

  /** Fail fast within a declaration: when the fields before `FIELDS[k]` are
      acceptable and `FIELDS[k]` is not, the error is the one `FIELDS[k]`
      reports, whatever the later fields hold. */
  lemma {:induction false} ParseEntryFirstFailure(idx: nat, value: Value, k: nat)
    requires value.Table? && k < |FIELDS|
    requires forall j :: 0 <= j < k ==> FieldAccepted(value.entries, FIELDS[j])
    requires !FieldAccepted(value.entries, FIELDS[k])
    ensures ParseEntry(idx, value) == Err(FieldError(idx, value.entries, FIELDS[k]))
  {
    var t := value.entries;
    if k >= 1 { assert FieldAccepted(t, FIELDS[0]); }
    if k >= 2 { assert FieldAccepted(t, FIELDS[1]); }
    if k >= 3 { assert FieldAccepted(t, FIELDS[2]); }
    if k >= 4 { assert FieldAccepted(t, FIELDS[3]); }
  }

  /** A table whose fields are all acceptable yields the record built from
      them: the `dir` text, the optional texts (`None` when absent), and the
      mode's permission bits or 0o755. */
  lemma {:induction false} ParseEntryAccepted(idx: nat, value: Value)
    requires value.Table?
    requires forall j :: 0 <= j < |FIELDS| ==> FieldAccepted(value.entries, FIELDS[j])
    ensures ParseEntry(idx, value).Ok?
    ensures var t := value.entries;
      ParseEntry(idx, value).value == DirInfo(
        idx,
        t["dir"].text,
        OptionalText(t, "user"),
        OptionalText(t, "group"),
        if "mode" in t then OctalValue(Unsigned(t["mode"].text)) % 0x200 else DEFAULT_MODE,
        OptionalText(t, "caps"))
  {
    var t := value.entries;
    assert FieldAccepted(t, FIELDS[0]) && FieldAccepted(t, FIELDS[1]) && FieldAccepted(t, FIELDS[2]);
    assert FieldAccepted(t, FIELDS[3]) && FieldAccepted(t, FIELDS[4]);
  }

  /** Conversely, a declaration is accepted only when it is a table whose
      fields are all acceptable. */
  lemma {:induction false} ParseEntryOkOnlyIfAccepted(idx: nat, value: Value)
    requires ParseEntry(idx, value).Ok?
    ensures value.Table?
    ensures forall j :: 0 <= j < |FIELDS| ==> FieldAccepted(value.entries, FIELDS[j])
  {
    var t := value.entries;
    forall j | 0 <= j < |FIELDS| ensures FieldAccepted(t, FIELDS[j]) {
      if !FieldAccepted(t, FIELDS[j]) {
        var k :| 0 <= k < |FIELDS| && !FieldAccepted(t, FIELDS[k]) &&
          forall i :: 0 <= i < k ==> FieldAccepted(t, FIELDS[i]);
        ParseEntryFirstFailure(idx, value, k);
      }
    }
  }

  // ---------------------------------------------------------------------
  // Parsing the whole list
  // ---------------------------------------------------------------------

  /** The outcome of `DirInfo::new` on `values`: the records of all entries
      in order, or the error of the first entry that fails. */
  function ParseAll(values: seq<Value>): (r: Result<seq<DirInfo>, ConfigError>)
    ensures r.Ok? ==> |r.value| == |values|
    ensures r.Ok? ==> forall i :: 0 <= i < |r.value| ==> r.value[i].idx == i
    ensures r.Err? ==> r.error.idx < |values|
    decreases |values|
  {
    if values == [] then
      Ok([])
    else
      var dirs :- ParseAll(values[..|values| - 1]);
      var dir :- ParseEntry(|values| - 1, values[|values| - 1]);
      Ok(dirs + [dir])
  }

  /** `DirInfo::new`: walk the entries in order, pushing one record per
      entry, and return at the first entry that fails. */
  method New(values: seq<Value>) returns (r: Result<seq<DirInfo>, ConfigError>)
    ensures r == ParseAll(values)
  {
    var dirs: seq<DirInfo> := [];
    for idx := 0 to |values|
      invariant ParseAll(values[..idx]) == Ok(dirs)
    {
      assert values[..idx + 1][..idx] == values[..idx];
      if ParseEntry(idx, values[idx]).Err? {
        ParseAllOk(values[..idx]);
        ParseAllStops(values, idx);
      }
      var dir :- ParseEntry(idx, values[idx]);
      dirs := dirs + [dir];
    }
    assert values[..|values|] == values;
    return Ok(dirs);
  }

  /** The whole list parses exactly when every entry does, and then the
      records are the entries' records, one per entry, in input order. */
  lemma {:induction false} ParseAllOk(values: seq<Value>)
    ensures ParseAll(values).Ok? <==>
      forall i :: 0 <= i < |values| ==> ParseEntry(i, values[i]).Ok?
    ensures ParseAll(values).Ok? ==>
      |ParseAll(values).value| == |values| &&
      forall i :: 0 <= i < |values| ==> ParseAll(values).value[i] == ParseEntry(i, values[i]).value
    decreases |values|
  {
    if values != [] {
      var n := |values| - 1;
      var init := values[..n];
      ParseAllOk(init);
      assert forall i :: 0 <= i < n ==> init[i] == values[i];
    }
  }

  /** Fail fast across entries: when the entries before `k` are fine and
      entry `k` is not, the list fails with entry `k`'s error. */
  lemma {:induction false} ParseAllStops(values: seq<Value>, k: nat)
    requires k < |values|
    requires forall i :: 0 <= i < k ==> ParseEntry(i, values[i]).Ok?
    requires ParseEntry(k, values[k]).Err?
    ensures ParseAll(values) == Err(ParseEntry(k, values[k]).error)
    decreases |values|
  {
    var n := |values| - 1;
    var init := values[..n];
    if k == n {
      ParseAllOk(init);
    } else {
      assert init[k] == values[k];
      assert forall i :: 0 <= i < k ==> init[i] == values[i];
      ParseAllStops(init, k);
    }
  }

  /** A failure names the lowest failing index: the error is that of entry
      `k`, all of whose predecessors are fine. */
  lemma {:induction false} ParseAllFirstError(values: seq<Value>) returns (k: nat)
    requires ParseAll(values).Err?
    ensures k < |values|
    ensures forall i :: 0 <= i < k ==> ParseEntry(i, values[i]).Ok?
    ensures ParseEntry(k, values[k]) == Err(ParseAll(values).error)
    decreases |values|
  {
    var n := |values| - 1;
    var init := values[..n];
    assert forall i :: 0 <= i < n ==> init[i] == values[i];
    if ParseAll(init).Err? {
      k := ParseAllFirstError(init);
    } else {
      ParseAllOk(init);
      k := n;
    }
  }

  /** Entries after a failing one are never examined: appending anything to
      a failing list leaves its error unchanged. */
  lemma {:induction false} ParseAllIgnoresLater(values: seq<Value>, more: seq<Value>)
    requires ParseAll(values).Err?
    ensures ParseAll(values + more) == ParseAll(values)
  {
    var k := ParseAllFirstError(values);
    assert forall i :: 0 <= i < |values| ==> (values + more)[i] == values[i];
    ParseAllStops(values + more, k);
  }

  /** On success nothing is dropped or reordered: record `i` has index `i`,
      the `dir` text of entry `i` and permission bits of at most 0o777. */
  lemma {:induction false} ParseAllPreservesOrder(values: seq<Value>, i: nat)
    requires ParseAll(values).Ok? && i < |values|
    ensures |ParseAll(values).value| == |values|
    ensures var d := ParseAll(values).value[i];
      d.idx == i && d.mode <= PERMISSION_MAX &&
      values[i].Table? && "dir" in values[i].entries && values[i].entries["dir"] == Str(d.dir)
  {
    ParseAllOk(values);
  }

  // ---------------------------------------------------------------------
  // Rendering a record for the RPM backend
  // ---------------------------------------------------------------------

  /** The backend's capability-string check: `None` when it accepts the
      string, otherwise its diagnostic. */
  type CapsCheck = string -> Option<BackendError>

  /** `rpm::FileMode`: `Default` is whatever the backend starts a file entry
      with; `Dir` is `FileMode::dir(permissions)`. */
  datatype FileMode = Default | Dir(permissions: U16)

  /** The attributes of one entry of the package; `None` for the user or
      group leaves the backend's default owner in place. */
  datatype FileOptions = FileOptions(
    path: string,
    mode: FileMode,
    user: Option<string>,
    group: Option<string>,
    caps: Option<string>)

  /** `dir_info.generate_rpm_file_options()`: a directory entry at `dir`
      with a directory mode, owner, group and capabilities as recorded; a
      rejected capability string gives `DirsInvalidCaps` with the record's
      own index. */
  function GenerateRpmFileOptions(d: DirInfo, check: CapsCheck): (r: Result<FileOptions, ConfigError>)
    ensures r.Ok? <==> d.caps.None? || check(d.caps.value).None?
    ensures r.Err? ==> r.error == DirsInvalidCaps(d.idx, check(d.caps.value).value)
    ensures r.Ok? ==> r.value == FileOptions(d.dir, Dir(d.mode), d.user, d.group, d.caps)
  {
    var option := FileOptions(d.dir, Default, None, None, None);
    var option := option.(mode := Dir(d.mode));
    var option := if d.user.Some? then option.(user := d.user) else option;
    var option := if d.group.Some? then option.(group := d.group) else option;
    if d.caps.Some? then
      match check(d.caps.value)
      case Some(err) => Err(DirsInvalidCaps(d.idx, err))
      case None => Ok(option.(caps := d.caps))
    else
      Ok(option)
  }

  /** A record without capabilities renders whatever the backend's check. */
  lemma {:induction false} RenderWithoutCaps(d: DirInfo, check: CapsCheck)
    requires d.caps.None?
    ensures GenerateRpmFileOptions(d, check).Ok?
  {
  }

  /** Parsing then rendering: the entry rendered from record `i` sits at the
      `dir` of input entry `i` with a directory mode of at most 0o777, and a
      rendering error names entry `i`. */
  lemma {:induction false} ParseThenRender(values: seq<Value>, i: nat, check: CapsCheck)
    requires ParseAll(values).Ok? && i < |values|
    ensures |ParseAll(values).value| == |values|
    ensures var r := GenerateRpmFileOptions(ParseAll(values).value[i], check);
      (r.Ok? ==> r.value.mode.Dir? && r.value.mode.permissions <= PERMISSION_MAX &&
                 values[i].Table? && "dir" in values[i].entries &&
                 values[i].entries["dir"] == Str(r.value.path)) &&
      (r.Err? ==> r.error.DirsInvalidCaps? && r.error.idx == i)
  {
    ParseAllPreservesOrder(values, i);
  }
}
