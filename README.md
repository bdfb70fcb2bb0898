# Directory declarations for cargo-generate-rpm

This project models the directory-declaration component of cargo-generate-rpm
in Dafny and proves properties of the model. A package manifest can declare
directories that the RPM package owns and creates empty. Each declaration is
a TOML table with these keys:

- `dir`: a required string, the path of the directory;
- `user`, `group`, `caps`: optional strings;
- `mode`: an optional octal string.

`DirInfo::new` validates the whole list of declarations. It returns either
one `DirInfo` record per entry, in input order, or the error of the first
entry that fails. `generate_rpm_file_options` turns one record into the
attributes the RPM backend uses for a directory entry.

Files:

- `wrappers.dfy` (module `Wrappers`): `Option` and `Result`, usable with `:-`.
  `:-` plays the part of Rust's `?`, and `OkOr` plays `Option::ok_or`.
- `toml_value.dfy` (module `TomlValue`): the three views of a TOML value that
  the parser uses: table, string, anything else.
- `octal.dfy` (module `Octal`): octal positional notation, and Rust's
  `u16::from_str_radix(s, 8)` written as the standard library's checked left
  fold. The fold is proved to agree with positional notation.
- `dir_info.dfy` (module `DirInfo`): the record, the errors, per-field
  extraction, the per-entry parse, the loop of `DirInfo::new` as a method,
  and the renderer.
- `dir_info_cases.dfy` (module `DirInfoCases`): concrete declarations and
  their outcomes.

How the model is built:

- The loop of `DirInfo::new` is the method `DirInfo.New`. It pushes records
  onto a sequence and returns early through `:-`. Its loop invariant ties
  the records built so far to the function `DirInfo.ParseAll` on the prefix
  of the input. The lemmas about `ParseAll` state what the list-level
  contract means.
- The combinator chain inside the loop is the function `DirInfo.ParseEntry`.
- To state the fail-fast order within one entry, each field is also judged
  on its own by `FieldAccepted`. `ParseEntry` is then proved to report the
  error of the first unacceptable field in the order base type, `dir`,
  `user`, `group`, `mode`, `caps`.
- The backend's capability check is a function parameter `check: CapsCheck`
  that nothing constrains. This lets the model state how the record's index
  reaches the `DirsInvalidCaps` error without modelling the check.

Two points about the code that the model keeps:

- The code accepts any string for `dir`, including `""`, and so does the
  model.
- A `mode` whose octal value exceeds 65535 makes `u16::from_str_radix`
  overflow. The model rejects it with
  `DirsWrongType(idx, "mode", "oct-string")` before any masking.

## Model

| member | source | states |
|---|---|---|
| `DirInfo.New` | src/config/dir_info.rs:14-70 | The returned value is exactly `ParseAll(values)`. The loop keeps `ParseAll(values[..idx]) == Ok(dirs)`, and an early return happens only with the error of the first failing entry. |
| `DirInfo.ParseAll` | src/config/dir_info.rs:14-70 | The outcome of `DirInfo::new`: on success, one record per entry, record `i` having `idx == i`; an error names an index inside the list. `ParseAllOk`, `ParseAllStops` and `ParseAllFirstError` state the rest of its meaning. |
| `DirInfo.ParseAllOk` | src/config/dir_info.rs:14-69 | The list parses if and only if every entry parses. Then the result has one record per entry, and record `i` is entry `i`'s record. |
| `DirInfo.ParseAllStops` | src/config/dir_info.rs:16-55 | If entries `0..k-1` are fine and entry `k` fails, the whole list fails with entry `k`'s error. |
| `DirInfo.ParseAllFirstError` | src/config/dir_info.rs:16-55 | A failing list's error is the error of some entry `k` whose predecessors all parse: it carries the lowest failing index. |
| `DirInfo.ParseAllIgnoresLater` | src/config/dir_info.rs:16-69 | Appending any entries to a failing list does not change its error, so later entries are never examined. |
| `DirInfo.ParseAllPreservesOrder` | src/config/dir_info.rs:58-65 | On success, record `i` has `idx == i`, the `dir` string of entry `i`, and a mode of at most 0o777. |
| `DirInfo.ParseEntry` | src/config/dir_info.rs:17-65 | Every error carries the entry's index. A record has `idx` equal to the position, a mode of at most 0o777, and the entry's `dir` string. |
| `DirInfo.ParseEntryNotTable` | src/config/dir_info.rs:17-19 | An entry that is not a table fails with `DirsWrongBaseType(idx)`. |
| `DirInfo.ParseEntryFirstFailure` | src/config/dir_info.rs:17-55 | Fields are checked in the order `dir`, `user`, `group`, `mode`, `caps`. When the fields before field `k` are acceptable and field `k` is not, the error is field `k`'s diagnostic: `DirsMissing(idx, "dir")`, `DirsWrongType(idx, "dest", "string")`, `DirsWrongType(idx, f, "string")` or `DirsWrongType(idx, "mode", "oct-string")`. |
| `DirInfo.ParseEntryAccepted` | src/config/dir_info.rs:21-65 | When every field is acceptable, the record holds the `dir` text, `None` for each absent optional field, the given texts otherwise, and the parsed mode masked to 0o777, or 0o755 when `mode` is absent. |
| `DirInfo.ParseEntryOkOnlyIfAccepted` | src/config/dir_info.rs:17-55 | An entry parses only if it is a table and every field is acceptable. This is the converse of `ParseEntryAccepted`. |
| `DirInfo.OptionalStr` | src/config/dir_info.rs:27-35 | An absent key gives `Ok(None)`. A string gives `Ok(Some(text))`. Any other value gives `DirsWrongType(idx, key, "string")`. |
| `DirInfo.ParseMode` | src/config/dir_info.rs:37-50 | An absent `mode` gives 0o755. A present one succeeds if and only if it is a string that `u16::from_str_radix(_, 8)` accepts. The result is that value modulo 0o1000, so it is at most 0o777. A non-string fails with `"string"` and a bad numeral with `"oct-string"`. |
| `DirInfo.PermissionBits` | src/config/dir_info.rs:46-47 | `mode & 0o777` is at most 0o777, is the identity on values up to 0o777, and differs from its input by a multiple of 0o1000. |
| `DirInfo.PermissionBitsLastThreeDigits` | src/config/dir_info.rs:43-47 | Masking a parsed mode of three or more digits yields the value of its last three octal digits. |
| `DirInfo.GenerateRpmFileOptions` | src/config/dir_info.rs:72-86 | Rendering succeeds if and only if there are no caps or the backend accepts them. A rejection is `DirsInvalidCaps(d.idx, backend error)`. On success the attributes are the record's path, `Dir(mode)`, and the record's user, group and caps. |
| `DirInfo.RenderWithoutCaps` | src/config/dir_info.rs:81-85 | A record without caps renders successfully, whatever the backend would say about capability strings. |
| `DirInfo.ParseThenRender` | src/config/dir_info.rs:58-86 | After a successful parse, rendering record `i` gives a directory entry at input entry `i`'s `dir` with permissions of at most 0o777. A rendering error is `DirsInvalidCaps` with index `i`. |
| `Octal.FromStrRadix8` | src/config/dir_info.rs:43-44 | `u16::from_str_radix(s, 8)` succeeds if and only if `s` is an optional `+` followed by one or more octal digits whose value is at most 65535. The result is that value. |
| `Octal.Accumulate` | src/config/dir_info.rs:43 | The standard library's digit loop behind `from_str_radix`: a result is never below the starting accumulator and exists only for all-octal digits. `AccumulateDenotes` states exactly what it computes. |
| `Octal.AccumulateDenotes` | src/config/dir_info.rs:43 | The standard library's digit-by-digit checked fold fails exactly on a non-digit or when the final value exceeds 65535, and otherwise yields the positional value. |
| `Octal.FromStrRadix8RoundTrip` | src/config/dir_info.rs:43 | Every `u16` written in octal, with or without a leading `+`, parses back to itself. |
| `Octal.FromStrRadix8LeadingZero` | src/config/dir_info.rs:43 | For a non-empty `s` that does not start with `+`, a leading `0` changes neither the outcome nor the value of the parse. |
| `Octal.FromStrRadix8RejectsSevenDigits` | src/config/dir_info.rs:43-44 | A seven-digit octal numeral without a leading zero is out of the `u16` range and is rejected. |
| `DirInfoCases.Radix700` | src/config/dir_info.rs:43 | `u16::from_str_radix("700", 8)` is 0o700. |
| `DirInfoCases.Radix7777` | src/config/dir_info.rs:43 | `u16::from_str_radix("7777", 8)` is 0o7777. |
| `DirInfoCases.Radix177777` | src/config/dir_info.rs:43 | `u16::from_str_radix("177777", 8)` is 65535. |
| `DirInfoCases.Radix200000` | src/config/dir_info.rs:43-44 | `u16::from_str_radix("200000", 8)` overflows and fails. |
| `DirInfoCases.ModeSevenHundred` | src/config/dir_info.rs:43-47 | Mode `"700"` gives 0o700. |
| `DirInfoCases.ModeHighBitsDiscarded` | src/config/dir_info.rs:46-47 | Mode `"7777"` gives 0o777. |
| `DirInfoCases.ModeLargestU16` | src/config/dir_info.rs:43-47 | Mode `"177777"` (65535) is accepted and masked to 0o777. |
| `DirInfoCases.ModeBeyondU16` | src/config/dir_info.rs:43-44 | Mode `"200000"` (65536) fails with `DirsWrongType(idx, "mode", "oct-string")`. It is not masked. |
| `DirInfoCases.ModeNotOctal` | src/config/dir_info.rs:43-44 | Modes `"abc"`, `""` and `"+"` fail with `"oct-string"` at the entry's index. |
| `DirInfoCases.ModeDefaulted` | src/config/dir_info.rs:27-55 | Without `mode` the record gets 0o755. The given `user` and `caps` are kept, and the absent `group` is `None`. |
| `DirInfoCases.BadShapes` | src/config/dir_info.rs:17-25 | A missing `dir` gives `DirsMissing(idx, "dir")`. A non-string `dir` gives `DirsWrongType(idx, "dest", "string")`. A bare string or other non-table value gives `DirsWrongBaseType(idx)`. |
| `DirInfoCases.UserBeforeMode` | src/config/dir_info.rs:27-49 | When both `user` and `mode` are wrong, the `user` error is the one reported. |
| `DirInfoCases.FirstEntryDecides` | src/config/dir_info.rs:16-23 | A two-entry list whose first entry lacks `dir` fails with `DirsMissing(0, "dir")`, whatever the second entry is. |
| `DirInfoCases.CapsRendering` | src/config/dir_info.rs:81-85 | The caps string `"cap_net_bind_service=ep"` is carried into the attributes when the backend accepts it. When the backend rejects it, the error is `DirsInvalidCaps` with the record's index. |

## Left out

- The `toml` crate. A value is a table, a string or `Other`. Integers, floats, booleans, datetimes and arrays are all `Other`, because the parser only asks "is it a table?" and "is it a string?".
- The internals of the `rpm` crate: `FileOptions::new`, `FileMode::dir` and the capability-string parser behind `option.caps(...)`. `FileOptions` is a record of path, mode, user, group and caps. `Default` stands for whatever mode the backend starts with. A `None` user or group leaves the backend's default owner in place. The capability check is the unconstrained parameter `check`, and an accepted caps string is kept as text rather than as the backend's parsed capability set.
- The conversion `err.into()` of the backend's error into the crate's error type. `DirsInvalidCaps` carries the backend's error unchanged, as `BackendError`.
- Octal.FromStrRadix8: does not tell apart the kinds of `ParseIntError` (empty input, invalid digit, overflow), because `DirInfo::new` maps all of them to the same `oct-string` error.
- `mode & 0o777` is written as `mode % 0o1000`. For a non-negative 16-bit value the two are the same.
- Rust lifetimes and borrowing: the record owns its strings. `Vec::with_capacity` is a performance detail and is not modelled. `idx` is a `nat`, because a `usize` index into a slice cannot overflow.
- The other variants of the crate's `ConfigError` are not raised by this component and are not modelled. `src/error.rs`, which declares the type, is not part of this model.
