/** Concrete declarations and what the directory parser and renderer make
    of them. */
module DirInfoCases {
  import opened Wrappers
  import opened TomlValue
  import opened Octal
  import opened DirInfo

  /** `u16::from_str_radix("700", 8)` is 0o700, folded digit by digit. */
  lemma {:induction false} Radix700()
    ensures FromStrRadix8("700") == Some(0x1C0)
  {
    assert Accumulate(0, "700") == Accumulate(7, "00") by { assert "700"[1..] == "00"; }
    assert Accumulate(7, "00") == Accumulate(56, "0") by { assert "00"[1..] == "0"; }
    assert Accumulate(56, "0") == Accumulate(448, "") by { assert "0"[1..] == ""; }
  }

  /** `u16::from_str_radix("7777", 8)` is 0o7777. */
  lemma {:induction false} Radix7777()
    ensures FromStrRadix8("7777") == Some(0xFFF)
  {
    assert Accumulate(0, "7777") == Accumulate(7, "777") by { assert "7777"[1..] == "777"; }
    assert Accumulate(7, "777") == Accumulate(63, "77") by { assert "777"[1..] == "77"; }
    assert Accumulate(63, "77") == Accumulate(511, "7") by { assert "77"[1..] == "7"; }
    assert Accumulate(511, "7") == Accumulate(4095, "") by { assert "7"[1..] == ""; }
  }

  /** `u16::from_str_radix("177777", 8)` is 65535, the largest `u16`. */
  lemma {:induction false} Radix177777()
    ensures FromStrRadix8("177777") == Some(0xFFFF)
  {
    assert ToOctal(0xFFFF) == "177777";
    FromStrRadix8RoundTrip(0xFFFF);
  }

  /** `u16::from_str_radix("200000", 8)` overflows: 65536 is not a `u16`. */
  lemma {:induction false} Radix200000()
    ensures FromStrRadix8("200000") == None
  {
    var s := "200000";
    assert ToOctal(0x10000) == s;
    OctalValueOfToOctal(0x10000);
    assert Unsigned(s) == s;
  }

  /** Mode "700" keeps all of its bits: 0o700. */
  lemma {:induction false} ModeSevenHundred()
    ensures ParseEntry(0, Table(map["dir" := Str("/var/lib/app"), "mode" := Str("700")]))
         == Ok(DirInfo(0, "/var/lib/app", None, None, 0x1C0, None))
  {
    Radix700();
  }

  /** Mode "7777" loses its set-user-id, set-group-id and sticky bits: 0o777. */
  lemma {:induction false} ModeHighBitsDiscarded()
    ensures ParseEntry(0, Table(map["dir" := Str("/srv"), "mode" := Str("7777")]))
         == Ok(DirInfo(0, "/srv", None, None, 0x1FF, None))
  {
    Radix7777();
  }

  /** Mode "177777" is the largest `u16` and is masked to 0o777. */
  lemma {:induction false} ModeLargestU16()
    ensures ParseEntry(3, Table(map["dir" := Str("/srv"), "mode" := Str("177777")]))
         == Ok(DirInfo(3, "/srv", None, None, 0x1FF, None))
  {
    Radix177777();
  }

  /** Mode "200000" is one more than the largest `u16`: it is rejected
      rather than masked. */
  lemma {:induction false} ModeBeyondU16()
    ensures ParseEntry(3, Table(map["dir" := Str("/srv"), "mode" := Str("200000")]))
         == Err(DirsWrongType(3, "mode", "oct-string"))
  {
    Radix200000();
  }

  /** Mode "abc", "" and "+" are not octal numerals. */
  lemma ModeNotOctal()
    ensures ParseEntry(2, Table(map["dir" := Str("/srv"), "mode" := Str("abc")]))
         == Err(DirsWrongType(2, "mode", "oct-string"))
    ensures ParseEntry(2, Table(map["dir" := Str("/srv"), "mode" := Str("")]))
         == Err(DirsWrongType(2, "mode", "oct-string"))
    ensures ParseEntry(2, Table(map["dir" := Str("/srv"), "mode" := Str("+")]))
         == Err(DirsWrongType(2, "mode", "oct-string"))
  {
  }

  /** Without a mode the record gets 0o755; user, group and caps stay as given. */
  lemma ModeDefaulted()
    ensures ParseEntry(1, Table(map["dir" := Str("/srv"), "user" := Str("app"), "caps" := Str("cap_net_bind_service=ep")]))
         == Ok(DirInfo(1, "/srv", Some("app"), None, 0x1ED, Some("cap_net_bind_service=ep")))
  {
  }

  /** A missing `dir` and a declaration that is not a table. */
  lemma BadShapes()
    ensures ParseEntry(4, Table(map["user" := Str("app")])) == Err(DirsMissing(4, "dir"))
    ensures ParseEntry(4, Table(map["dir" := Other])) == Err(DirsWrongType(4, "dest", "string"))
    ensures ParseEntry(4, Str("/srv")) == Err(DirsWrongBaseType(4))
    ensures ParseEntry(4, Other) == Err(DirsWrongBaseType(4))
  {
  }

  /** A wrong `user` is reported before a wrong `mode` of the same entry. */
  lemma UserBeforeMode()
    ensures ParseEntry(0, Table(map["dir" := Str("/srv"), "user" := Other, "mode" := Str("9")]))
         == Err(DirsWrongType(0, "user", "string"))
  {
  }

  /** An invalid first entry is the only error, whatever follows it. */
  lemma {:induction false} FirstEntryDecides(second: Value)
    ensures ParseAll([Table(map[]), second]) == Err(DirsMissing(0, "dir"))
  {
    ParseAllStops([Table(map[]), second], 0);
  }

  /** Rendering a capability string: accepted, it is carried along;
      rejected, the error carries the record's index. */
  lemma {:induction false} CapsRendering(check: CapsCheck)
    ensures var d := DirInfo(5, "/srv", None, None, 0x1ED, Some("cap_net_bind_service=ep"));
      var r := GenerateRpmFileOptions(d, check);
      (check("cap_net_bind_service=ep").None? ==>
         r == Ok(FileOptions("/srv", Dir(0x1ED), None, None, Some("cap_net_bind_service=ep")))) &&
      (check("cap_net_bind_service=ep").Some? ==>
         r == Err(DirsInvalidCaps(5, check("cap_net_bind_service=ep").value)))
  {
  }
}
