/** The router bodies the page client is exercised with, checked against
    the general parser lemmas: the happy-path status record, the rejected
    status records, and device pages with and without devices. */
module PageCases {
  import opened Results
  import opened Text
  import Json
  import opened Pages

  lemma JoinFront(a: string, b: string, c: string, rest: seq<string>, sep: char)
    requires |rest| > 0
    ensures Join([a, b, c] + rest, sep) == a + [sep] + b + [sep] + c + [sep] + Join(rest, sep)
  {
    var fs := [a, b, c] + rest;
    assert fs[1..] == [b, c] + rest;
    assert fs[1..][1..] == [c] + rest;
    assert fs[1..][1..][1..] == rest;
    var j := Join(rest, sep);
    assert Join([c] + rest, sep) == c + [sep] + j;
    assert Join([b, c] + rest, sep) == b + [sep] + (c + [sep] + j);
    assert Join(fs, sep) == a + [sep] + (b + [sep] + (c + [sep] + j));
  }

  lemma ZerosThree()
    ensures Join(["0", "0", "0", "\n\n"], ';') == "0;0;0;\n\n"
  {
    var fs := ["0", "0", "0", "\n\n"];
    assert Join(fs[2..], ';') == "0;\n\n";
    assert Join(fs[1..], ';') == "0;0;\n\n";
  }

  lemma ZerosFour()
    ensures Join(["0", "0", "0", "0", "\n\n"], ';') == "0;0;0;0;\n\n"
  {
    var fs := ["0", "0", "0", "0", "\n\n"];
    ZerosThree();
    assert fs[1..] == ["0", "0", "0", "\n\n"];
  }

  lemma SmallDecimals()
    ensures Decimal(16) == "16" && Decimal(3) == "3" && Decimal(0) == "0"
  {
    assert Decimal(16) == Decimal(1) + [DigitChar(6)];
  }

  lemma HappyRecord()
    ensures FormatBasicHomeResult(StatusSnapshot("success", 3, 16), [0, 0, 0, 0], "\n\n") == "success;3;16;0;0;0;0;\n\n"
  {
    SmallDecimals();
    ZerosFour();
    var tail := ["0", "0", "0", "0", "\n\n"];
    assert ["success", "3", "16", "0", "0", "0", "0", "\n\n"] == ["success", "3", "16"] + tail;
    JoinFront("success", "3", "16", tail, ';');
    // the same text, spelled as the record is glued
    assert "success" + [';'] + "3" + [';'] + "16" + [';'] + "0;0;0;0;\n\n" == "success;3;16;0;0;0;0;\n\n";
  }

  /** `success;3;16;0;0;0;0;` and two blank lines is the record of status
      "success" with 3 satellites and 16 devices. */
  lemma StatusHappyPath()
    ensures ParseBasicHomeResult("success;3;16;0;0;0;0;\n\n") == Ok(StatusSnapshot("success", 3, 16))
  {
    HappyRecord();
    BasicHomeResultRoundTrip(StatusSnapshot("success", 3, 16), [0, 0, 0, 0], "\n\n");
  }

  lemma StatusRejectsText()
    ensures ParseBasicHomeResult("this is an invalid body").Err?
  {
    SplitWithoutSep("this is an invalid body", ';');
  }

  lemma FieldsWithoutSemicolon()
    ensures ';' !in "success" && ';' !in "3" && ';' !in "16" && ';' !in "wef"
    ensures forall i :: 0 <= i < 5 ==> ';' !in ["0", "0", "0", "0", "\n\n"][i]
    ensures forall i :: 0 <= i < 4 ==> ';' !in ["0", "0", "0", "\n\n"][i]
  {
  }

  lemma FieldsFree(a: string, b: string, c: string, tail: seq<string>)
    requires ';' !in a && ';' !in b && ';' !in c
    requires forall i :: 0 <= i < |tail| ==> ';' !in tail[i]
    ensures forall i :: 0 <= i < |[a, b, c] + tail| ==> ';' !in ([a, b, c] + tail)[i]
  {
    var fields := [a, b, c] + tail;
    forall i | 0 <= i < |fields| ensures ';' !in fields[i] {
      if i == 0 {
        assert fields[i] == a;
      } else if i == 1 {
        assert fields[i] == b;
      } else if i == 2 {
        assert fields[i] == c;
      } else {
        assert fields[i] == tail[i - 3];
      }
    }
  }

  lemma SatellitesBody()
    ensures Join(["success", "wef", "16", "0", "0", "0", "0", "\n\n"], ';') == "success;wef;16;0;0;0;0;\n\n"
  {
    ZerosFour();
    var tail := ["0", "0", "0", "0", "\n\n"];
    assert ["success", "wef", "16", "0", "0", "0", "0", "\n\n"] == ["success", "wef", "16"] + tail;
    JoinFront("success", "wef", "16", tail, ';');
    // the same text, spelled as the record is glued
    assert "success" + [';'] + "wef" + [';'] + "16" + [';'] + "0;0;0;0;\n\n" == "success;wef;16;0;0;0;0;\n\n";
  }

  lemma DevicesBody()
    ensures Join(["success", "3", "wef", "0", "0", "0", "0", "\n\n"], ';') == "success;3;wef;0;0;0;0;\n\n"
  {
    ZerosFour();
    var tail := ["0", "0", "0", "0", "\n\n"];
    assert ["success", "3", "wef", "0", "0", "0", "0", "\n\n"] == ["success", "3", "wef"] + tail;
    JoinFront("success", "3", "wef", tail, ';');
    // the same text, spelled as the record is glued
    assert "success" + [';'] + "3" + [';'] + "wef" + [';'] + "0;0;0;0;\n\n" == "success;3;wef;0;0;0;0;\n\n";
  }

  lemma MissingFieldBody()
    ensures Join(["success", "3", "16", "0", "0", "0", "\n\n"], ';') == "success;3;16;0;0;0;\n\n"
  {
    ZerosThree();
    var tail := ["0", "0", "0", "\n\n"];
    assert ["success", "3", "16", "0", "0", "0", "\n\n"] == ["success", "3", "16"] + tail;
    JoinFront("success", "3", "16", tail, ';');
    // the same text, spelled as the record is glued
    assert "success" + [';'] + "3" + [';'] + "16" + [';'] + "0;0;0;\n\n" == "success;3;16;0;0;0;\n\n";
  }

  lemma StatusRejectsSatellites()
    ensures ParseBasicHomeResult("success;wef;16;0;0;0;0;\n\n").Err?
  {
    var tail := ["0", "0", "0", "0", "\n\n"];
    var fields := ["success", "wef", "16"] + tail;
    FieldsWithoutSemicolon();
    FieldsFree("success", "wef", "16", tail);
    assert fields == ["success", "wef", "16", "0", "0", "0", "0", "\n\n"];
    SatellitesBody();
    assert !IsDigit(fields[1][0]);
    BasicHomeResultRejects(fields);
  }

  lemma StatusRejectsDevices()
    ensures ParseBasicHomeResult("success;3;wef;0;0;0;0;\n\n").Err?
  {
    var tail := ["0", "0", "0", "0", "\n\n"];
    var fields := ["success", "3", "wef"] + tail;
    FieldsWithoutSemicolon();
    FieldsFree("success", "3", "wef", tail);
    assert fields == ["success", "3", "wef", "0", "0", "0", "0", "\n\n"];
    DevicesBody();
    assert !IsDigit(fields[2][0]);
    BasicHomeResultRejects(fields);
  }

  lemma StatusRejectsMissingField()
    ensures ParseBasicHomeResult("success;3;16;0;0;0;\n\n").Err?
  {
    var tail := ["0", "0", "0", "\n\n"];
    var fields := ["success", "3", "16"] + tail;
    FieldsWithoutSemicolon();
    FieldsFree("success", "3", "16", tail);
    assert fields == ["success", "3", "16", "0", "0", "0", "\n\n"];
    MissingFieldBody();
    BasicHomeResultRejects(fields);
  }

  /** An empty device list, flagged unchanged or changed, with the router's
      three trailing line breaks. */
  lemma DevicesEmpty(flag: string)
    requires flag == "0" || flag == "1"
    ensures ParseDeviceInfo("device_changed=" + flag + "\ndevice=[]\n\n\n") == Ok([])
  {
    assert Json.Encode([]) == "[]";
    assert DeviceInfoBody(flag, [], "\n\n\n") == "device_changed=" + flag + "\ndevice=[]\n\n\n";
    DeviceInfoRoundTrip(flag, [], "\n\n\n");
  }

  lemma DevicesRejectText()
    ensures ParseDeviceInfo("this is something else") == Err(UnexpectedBody(PathOf(DeviceInfo)))
  {
    SplitWithoutSep("this is something else", '\n');
  }

  /** The truncated payload ends with `,`, not with the closing `]`. */
  lemma InvalidJsonPayload()
    ensures '\n' !in "[{ \"abc\": \"123\" },"
    ensures Json.Decode("[{ \"abc\": \"123\" },").Err?
  {
    Json.DecodeRejectsUnclosed("[{ \"abc\": \"123\" },");
  }

  /** A device list cut off after its first record is malformed JSON. */
  lemma DevicesRejectInvalidJson()
    ensures ParseDeviceInfo("device_changed=1\ndevice=[{ \"abc\": \"123\" },") == Err(MalformedJson)
  {
    // the same text, spelled as the page is glued
    assert DeviceChangedPrefix + "1" + "\n" + DevicePrefix + "[{ \"abc\": \"123\" }," == "device_changed=1\ndevice=[{ \"abc\": \"123\" },";
    InvalidJsonPayload();
    DeviceInfoRejectsPayload("1", "[{ \"abc\": \"123\" },");
  }
}
