/** The JSON payload of the device-info page: an array of flat objects whose
    values are strings. Encode is what `JSON.stringify` produces for such a
    list; Decode is `JSON.parse` restricted to that shape (blanks between
    tokens, the standard string escapes, and a repeated key keeping its first
    position and its last value, as a JavaScript object does). */
module Json {
  import opened Results
  import opened Text

  /** One key/value property of a device record. */
  datatype Member = Member(key: string, value: string)

  /** A device record: its properties in order. */
  type Device = seq<Member>

  predicate KeyAbsent(d: Device, k: string) {
    forall i :: 0 <= i < |d| ==> d[i].key != k
  }

  /** A JavaScript object never holds the same key twice. */
  predicate DistinctKeys(d: Device) {
    forall i, j :: 0 <= i < j < |d| ==> d[i].key != d[j].key
  }

  /** Control characters (below U+0020) may not appear raw inside JSON text. */
  predicate IsControl(c: char) {
    (c as int) < 0x20
  }

  predicate NoControl(s: string) {
    forall i :: 0 <= i < |s| ==> !IsControl(s[i])
  }

  // ---------------------------------------------------------------------
  // Object assembly: `obj[key] = value` for each member in order
  // ---------------------------------------------------------------------

  /** Assigns one property: an existing key keeps its position and takes the
      new value; a new key goes last. */
  function Put(d: Device, m: Member): (r: Device)
    ensures KeyAbsent(d, m.key) ==> r == d + [m]
    ensures !KeyAbsent(d, m.key) ==> |r| == |d| && m in r
    decreases |d|
  {
    if |d| == 0 then [m]
    else if d[0].key == m.key then [m] + d[1..]
    else
      var r := [d[0]] + Put(d[1..], m);
      assert KeyAbsent(d, m.key) ==> KeyAbsent(d[1..], m.key);
      assert !KeyAbsent(d, m.key) ==> !KeyAbsent(d[1..], m.key) by {
        if !KeyAbsent(d, m.key) {
          var i :| 0 <= i < |d| && d[i].key == m.key;
          assert d[1..][i - 1].key == m.key;
        }
      }
      r
  }

  /** Assigning an existing key overwrites that property where it stands:
      every other property keeps its position and value. */
  lemma {:induction false} PutReplaces(d: Device, m: Member, i: nat)
    requires i < |d| && d[i].key == m.key
    requires forall j :: 0 <= j < i ==> d[j].key != m.key
    ensures Put(d, m) == d[i := m]
    decreases |d|
  {
    if i > 0 {
      assert forall j :: 0 <= j < i - 1 ==> d[1..][j].key != m.key by {
        forall j | 0 <= j < i - 1 ensures d[1..][j].key != m.key {
          assert d[1..][j] == d[j + 1];
        }
      }
      PutReplaces(d[1..], m, i - 1);
      assert d[i := m] == [d[0]] + d[1..][i - 1 := m];
    }
  }

  /** In an object (distinct keys), the property with the assigned key is
      the one overwritten. */
  lemma PutReplacesKey(d: Device, m: Member, i: nat)
    requires DistinctKeys(d)
    requires i < |d| && d[i].key == m.key
    ensures Put(d, m) == d[i := m]
  {
    PutReplaces(d, m, i);
  }

  /** The object that the parsed members build, assigned left to right. */
  function Assemble(ms: seq<Member>): Device
    decreases |ms|
  {
    if |ms| == 0 then [] else Put(Assemble(ms[..|ms| - 1]), ms[|ms| - 1])
  }

  /** Members with distinct keys assemble to themselves, in order. */
  lemma {:induction false} AssembleDistinct(ms: seq<Member>)
    requires DistinctKeys(ms)
    ensures Assemble(ms) == ms
    decreases |ms|
  {
    if |ms| > 0 {
      var init := ms[..|ms| - 1];
      assert DistinctKeys(init);
      AssembleDistinct(init);
      assert KeyAbsent(init, ms[|ms| - 1].key);
      assert init + [ms[|ms| - 1]] == ms;
    }
  }

  // ---------------------------------------------------------------------
  // Hexadecimal digits of \uXXXX escapes
  // ---------------------------------------------------------------------

  predicate IsHexDigit(c: char) {
    IsDigit(c) || 'a' <= c <= 'f' || 'A' <= c <= 'F'
  }

  function HexValue(c: char): (v: nat)
    requires IsHexDigit(c)
    ensures v < 16
  {
    if IsDigit(c) then DigitValue(c)
    else if 'a' <= c <= 'f' then (c as int) - ('a' as int) + 10
    else (c as int) - ('A' as int) + 10
  }

  /** Lower-case hex digit, as `JSON.stringify` writes it. */
  function HexDigit(n: nat): (c: char)
    requires n < 16
    ensures IsHexDigit(c) && HexValue(c) == n
  {
    if n < 10 then DigitChar(n) else ('a' as int + n - 10) as char
  }

  // ---------------------------------------------------------------------
  // Encoding
  // ---------------------------------------------------------------------

  /** How `JSON.stringify` writes one character inside a string literal. */
  function EscapeChar(c: char): (e: string)
    ensures |e| > 0 && e[0] != '"'
    ensures NoControl(e)
  {
    if c == '"' then ['\\', '"']
    else if c == '\\' then ['\\', '\\']
    else if c as int == 0x08 then ['\\', 'b']
    else if c as int == 0x0C then ['\\', 'f']
    else if c == '\n' then ['\\', 'n']
    else if c == '\r' then ['\\', 'r']
    else if c == '\t' then ['\\', 't']
    else if IsControl(c) then ['\\', 'u', '0', '0', HexDigit(c as int / 16), HexDigit(c as int % 16)]
    else [c]
  }

  function EncodeChars(s: string): (e: string)
    ensures NoControl(e)
    decreases |s|
  {
    if |s| == 0 then "" else EscapeChar(s[0]) + EncodeChars(s[1..])
  }

  function Quote(s: string): (e: string)
    ensures |e| > 0 && e[0] == '"'
    ensures NoControl(e)
  {
    "\"" + EncodeChars(s) + "\""
  }

  function EncodeMember(m: Member): (e: string)
    ensures |e| > 0 && e[0] == '"'
    ensures NoControl(e)
  {
    Quote(m.key) + ":" + Quote(m.value)
  }

  function EncodeMembers(ms: seq<Member>): (e: string)
    requires |ms| > 0
    ensures |e| > 0 && e[0] == '"'
    ensures NoControl(e)
    decreases |ms|
  {
    if |ms| == 1 then EncodeMember(ms[0])
    else EncodeMember(ms[0]) + "," + EncodeMembers(ms[1..])
  }

  function EncodeObject(d: Device): (e: string)
    ensures |e| > 0 && e[0] == '{'
    ensures NoControl(e)
  {
    "{" + (if |d| == 0 then "" else EncodeMembers(d)) + "}"
  }

  function EncodeObjects(ds: seq<Device>): (e: string)
    requires |ds| > 0
    ensures |e| > 0 && e[0] == '{'
    ensures NoControl(e)
    decreases |ds|
  {
    if |ds| == 1 then EncodeObject(ds[0])
    else EncodeObject(ds[0]) + "," + EncodeObjects(ds[1..])
  }

  /** `JSON.stringify(devices)`: compact, no blanks, one line. */
  function Encode(ds: seq<Device>): (e: string)
    ensures NoControl(e)
    ensures '\n' !in e
  {
    var e := "[" + (if |ds| == 0 then "" else EncodeObjects(ds)) + "]";
    assert forall i :: 0 <= i < |e| ==> e[i] != '\n' by {
      forall i | 0 <= i < |e| ensures e[i] != '\n' {
        assert !IsControl(e[i]);
      }
    }
    e
  }

  // ---------------------------------------------------------------------
  // Decoding
  // ---------------------------------------------------------------------

  /** Drops leading blanks. */
  function SkipBlank(s: string): (t: string)
    ensures |t| <= |s|
    ensures |t| == 0 || !IsBlankChar(t[0])
    decreases |s|
  {
    if |s| > 0 && IsBlankChar(s[0]) then SkipBlank(s[1..]) else s
  }

  /** Text that does not start with a blank is left as it is. */
  lemma SkipBlankStops(s: string)
    requires |s| > 0 && !IsBlankChar(s[0])
    ensures SkipBlank(s) == s
  {
  }

  /** One character of a string literal, escaped or not; the unescaped
      closing quote is handled by the caller. */
  function DecodeChar(s: string): (r: Result<(char, string)>)
    requires |s| > 0
    ensures r.Ok? ==> |r.value.1| < |s|
    ensures r.Err? ==> r.error == MalformedJson
  {
    if s[0] == '\\' then
      if |s| < 2 then Err(MalformedJson)
      else
        var e := s[1];
        if e == '"' || e == '\\' || e == '/' then Ok((e, s[2..]))
        else if e == 'b' then Ok((0x08 as char, s[2..]))
        else if e == 'f' then Ok((0x0C as char, s[2..]))
        else if e == 'n' then Ok(('\n', s[2..]))
        else if e == 'r' then Ok(('\r', s[2..]))
        else if e == 't' then Ok(('\t', s[2..]))
        else if e == 'u' && |s| >= 6 && IsHexDigit(s[2]) && IsHexDigit(s[3]) && IsHexDigit(s[4]) && IsHexDigit(s[5]) then
          var v := 4096 * HexValue(s[2]) + 256 * HexValue(s[3]) + 16 * HexValue(s[4]) + HexValue(s[5]);
          // a lone UTF-16 surrogate is not a character of this model
          if 0xD800 <= v < 0xE000 then Err(MalformedJson) else Ok((v as char, s[6..]))
        else Err(MalformedJson)
    else if IsControl(s[0]) then Err(MalformedJson)
    else Ok((s[0], s[1..]))
  }

  /** The rest of a string literal after its opening quote: its characters
      and the text after the closing quote. */
  function DecodeChars(s: string): (r: Result<(string, string)>)
    ensures r.Ok? ==> |r.value.1| < |s|
    decreases |s|
  {
    if |s| == 0 then Err(MalformedJson)
    else if s[0] == '"' then Ok(("", s[1..]))
    else
      var c :- DecodeChar(s);
      var rest :- DecodeChars(c.1);
      Ok(([c.0] + rest.0, rest.1))
  }

  function DecodeString(s: string): (r: Result<(string, string)>)
    ensures r.Ok? ==> |r.value.1| < |s|
  {
    if |s| > 0 && s[0] == '"' then DecodeChars(s[1..]) else Err(MalformedJson)
  }

  /** `"key" : "value"`. */
  function DecodeMember(s: string): (r: Result<(Member, string)>)
    ensures r.Ok? ==> |r.value.1| < |s|
  {
    var k :- DecodeString(s);
    var t := SkipBlank(k.1);
    if |t| > 0 && t[0] == ':' then
      var v :- DecodeString(SkipBlank(t[1..]));
      Ok((Member(k.0, v.0), v.1))
    else Err(MalformedJson)
  }

  /** One or more members separated by commas, through the closing brace. */
  function DecodeMembers(s: string): (r: Result<(seq<Member>, string)>)
    ensures r.Ok? ==> |r.value.1| < |s|
    decreases |s|
  {
    var m :- DecodeMember(s);
    var t := SkipBlank(m.1);
    if |t| > 0 && t[0] == ',' then
      var rest :- DecodeMembers(SkipBlank(t[1..]));
      Ok(([m.0] + rest.0, rest.1))
    else if |t| > 0 && t[0] == '}' then Ok(([m.0], t[1..]))
    else Err(MalformedJson)
  }

  function DecodeObject(s: string): (r: Result<(Device, string)>)
    ensures r.Ok? ==> |r.value.1| < |s|
  {
    if |s| > 0 && s[0] == '{' then
      var t := SkipBlank(s[1..]);
      if |t| > 0 && t[0] == '}' then Ok(([], t[1..]))
      else
        var ms :- DecodeMembers(t);
        Ok((Assemble(ms.0), ms.1))
    else Err(MalformedJson)
  }

  /** One or more objects separated by commas, through the closing bracket. */
  function DecodeObjects(s: string): (r: Result<(seq<Device>, string)>)
    ensures r.Ok? ==> |r.value.1| < |s|
    decreases |s|
  {
    var o :- DecodeObject(s);
    var t := SkipBlank(o.1);
    if |t| > 0 && t[0] == ',' then
      var rest :- DecodeObjects(SkipBlank(t[1..]));
      Ok(([o.0] + rest.0, rest.1))
    else if |t| > 0 && t[0] == ']' then Ok(([o.0], t[1..]))
    else Err(MalformedJson)
  }

  function DecodeArray(s: string): (r: Result<(seq<Device>, string)>)
    ensures r.Ok? ==> |r.value.1| < |s|
    ensures (|s| == 0 || s[0] != '[') ==> r.Err?
  {
    if |s| > 0 && s[0] == '[' then
      var t := SkipBlank(s[1..]);
      if |t| > 0 && t[0] == ']' then Ok(([], t[1..]))
      else DecodeObjects(t)
    else Err(MalformedJson)
  }

  /** `JSON.parse(text)` for a device list: one array, blanks around it,
      nothing else. */
  function Decode(text: string): (r: Result<seq<Device>>)
    ensures (|SkipBlank(text)| == 0 || SkipBlank(text)[0] != '[') ==> r.Err?
  {
    var a :- DecodeArray(SkipBlank(text));
    if |SkipBlank(a.1)| == 0 then Ok(a.0) else Err(MalformedJson)
  }

  // ---------------------------------------------------------------------
  // What the decoder accepts: every step consumes a prefix of its input,
  // and an accepted list ends with its closing bracket
  // ---------------------------------------------------------------------

  lemma {:induction false} SkipBlankSuffix(s: string)
    ensures IsSuffix(SkipBlank(s), s)
    decreases |s|
  {
    if |s| > 0 && IsBlankChar(s[0]) {
      SkipBlankSuffix(s[1..]);
      SuffixFrom(s, 1);
      SuffixTrans(SkipBlank(s[1..]), s[1..], s);
    }
  }

  /** Text that SkipBlank consumes entirely is blank. */
  lemma {:induction false} SkipBlankAll(s: string)
    requires |SkipBlank(s)| == 0
    ensures IsBlank(s)
    decreases |s|
  {
    if |s| > 0 {
      SkipBlankAll(s[1..]);
      forall i | 1 <= i < |s| ensures IsBlankChar(s[i]) {
        assert s[i] == s[1..][i - 1];
      }
    }
  }

  lemma DecodeCharSuffix(s: string)
    requires |s| > 0 && DecodeChar(s).Ok?
    ensures IsSuffix(DecodeChar(s).value.1, s)
  {
    if s[0] == '\\' && s[1] == 'u' {
      SuffixFrom(s, 6);
    } else if s[0] == '\\' {
      SuffixFrom(s, 2);
    } else {
      SuffixFrom(s, 1);
    }
  }

  lemma {:induction false} DecodeCharsSuffix(s: string)
    requires DecodeChars(s).Ok?
    ensures IsSuffix(DecodeChars(s).value.1, s)
    decreases |s|
  {
    if s[0] == '"' {
      SuffixFrom(s, 1);
    } else {
      var c := DecodeChar(s).value;
      DecodeCharSuffix(s);
      DecodeCharsSuffix(c.1);
      SuffixTrans(DecodeChars(c.1).value.1, c.1, s);
    }
  }

  lemma DecodeStringSuffix(s: string)
    requires DecodeString(s).Ok?
    ensures IsSuffix(DecodeString(s).value.1, s)
  {
    SuffixFrom(s, 1);
    DecodeCharsSuffix(s[1..]);
    SuffixTrans(DecodeChars(s[1..]).value.1, s[1..], s);
  }

  lemma DecodeMemberSuffix(s: string)
    requires DecodeMember(s).Ok?
    ensures IsSuffix(DecodeMember(s).value.1, s)
  {
    var k := DecodeString(s).value;
    var t := SkipBlank(k.1);
    var u := SkipBlank(t[1..]);
    DecodeStringSuffix(s);
    SkipBlankSuffix(k.1);
    SuffixTrans(t, k.1, s);
    SuffixFrom(t, 1);
    SuffixTrans(t[1..], t, s);
    SkipBlankSuffix(t[1..]);
    SuffixTrans(u, t[1..], s);
    DecodeStringSuffix(u);
    SuffixTrans(DecodeString(u).value.1, u, s);
  }

  /** Blanks, one separator and blanks again, skipped from a tail of `s`,
      leave tails of `s`. */
  lemma SkipSeparatorSuffix(t0: string, s: string)
    requires IsSuffix(t0, s)
    ensures IsSuffix(SkipBlank(t0), s)
    ensures |SkipBlank(t0)| > 0 ==> IsSuffix(SkipBlank(t0)[1..], s)
    ensures |SkipBlank(t0)| > 0 ==> IsSuffix(SkipBlank(SkipBlank(t0)[1..]), s)
  {
    var t := SkipBlank(t0);
    SkipBlankSuffix(t0);
    SuffixTrans(t, t0, s);
    if |t| > 0 {
      SuffixFrom(t, 1);
      SuffixTrans(t[1..], t, s);
      SkipBlankSuffix(t[1..]);
      SuffixTrans(SkipBlank(t[1..]), t[1..], s);
    }
  }

  lemma {:induction false} DecodeMembersSuffix(s: string)
    requires DecodeMembers(s).Ok?
    ensures IsSuffix(DecodeMembers(s).value.1, s)
    decreases |s|
  {
    var m := DecodeMember(s).value;
    DecodeMemberSuffix(s);
    SkipSeparatorSuffix(m.1, s);
    var t := SkipBlank(m.1);
    if t[0] == ',' {
      var u := SkipBlank(t[1..]);
      DecodeMembersSuffix(u);
      SuffixTrans(DecodeMembers(u).value.1, u, s);
    }
  }

  lemma DecodeObjectSuffix(s: string)
    requires DecodeObject(s).Ok?
    ensures IsSuffix(DecodeObject(s).value.1, s)
  {
    var t := SkipBlank(s[1..]);
    SuffixFrom(s, 1);
    SkipBlankSuffix(s[1..]);
    SuffixTrans(t, s[1..], s);
    if t[0] == '}' {
      SuffixFrom(t, 1);
      SuffixTrans(t[1..], t, s);
    } else {
      DecodeMembersSuffix(t);
      SuffixTrans(DecodeMembers(t).value.1, t, s);
    }
  }

  /** The character of `s` just before its unconsumed tail `rest` is `c`. */
  predicate ClosedBy(s: string, rest: string, c: char) {
    |rest| < |s| && s[|s| - |rest| - 1] == c
  }

  /** The tail `t` of `s` starts with `c`, so `s` is closed by `c` before
      the rest of `t`. */
  lemma ClosedByTail(s: string, t: string, c: char)
    requires IsSuffix(t, s) && |t| > 0 && t[0] == c
    ensures ClosedBy(s, t[1..], c)
  {
    assert t[0] == s[|s| - |t|];
  }

  /** A tail `u` of `s` that is closed by `c` closes `s` too. */
  lemma ClosedWithin(s: string, u: string, rest: string, c: char)
    requires IsSuffix(u, s) && ClosedBy(u, rest, c)
    ensures ClosedBy(s, rest, c)
  {
    assert u[|u| - |rest| - 1] == s[|s| - |u| + (|u| - |rest| - 1)];
  }

  lemma {:induction false} DecodeObjectsClosed(s: string)
    requires DecodeObjects(s).Ok?
    ensures ClosedBy(s, DecodeObjects(s).value.1, ']')
    ensures IsSuffix(DecodeObjects(s).value.1, s)
    decreases |s|
  {
    var o := DecodeObject(s).value;
    var t := SkipBlank(o.1);
    DecodeObjectSuffix(s);
    SkipBlankSuffix(o.1);
    SuffixTrans(t, o.1, s);
    if t[0] == ',' {
      var u := SkipBlank(t[1..]);
      SuffixFrom(t, 1);
      SkipBlankSuffix(t[1..]);
      SuffixTrans(u, t[1..], t);
      SuffixTrans(u, t, s);
      DecodeObjectsClosed(u);
      ClosedWithin(s, u, DecodeObjects(u).value.1, ']');
      SuffixTrans(DecodeObjects(u).value.1, u, s);
    } else {
      ClosedByTail(s, t, ']');
      SuffixFrom(t, 1);
      SuffixTrans(t[1..], t, s);
    }
  }

  lemma DecodeArrayClosed(s: string)
    requires DecodeArray(s).Ok?
    ensures ClosedBy(s, DecodeArray(s).value.1, ']')
    ensures IsSuffix(DecodeArray(s).value.1, s)
  {
    var t := SkipBlank(s[1..]);
    SuffixFrom(s, 1);
    SkipBlankSuffix(s[1..]);
    SuffixTrans(t, s[1..], s);
    if t[0] == ']' {
      ClosedByTail(s, t, ']');
      SuffixFrom(t, 1);
      SuffixTrans(t[1..], t, s);
    } else {
      DecodeObjectsClosed(t);
      ClosedWithin(s, t, DecodeObjects(t).value.1, ']');
      SuffixTrans(DecodeObjects(t).value.1, t, s);
    }
  }

  /** `JSON.parse` accepts a list only when its last non-blank character is
      the closing `]`: a truncated list, or one followed by anything but
      blanks, is rejected. */
  lemma DecodeClosesArray(text: string)
    ensures Decode(text).Ok? ==> |TrimEnd(text)| > 0 && TrimEnd(text)[|TrimEnd(text)| - 1] == ']'
  {
    if Decode(text).Ok? {
      var s := SkipBlank(text);
      var rest := DecodeArray(s).value.1;
      SkipBlankSuffix(text);
      DecodeArrayClosed(s);
      SkipBlankAll(rest);
      ClosedWithin(text, s, rest, ']');
      SuffixTrans(rest, s, text);
      var w := text[..|text| - |rest|];
      assert text == w + rest;
      TrimEndBlank(w, rest);
    }
  }

  /** Text whose last character is neither blank nor `]` is rejected. */
  lemma DecodeRejectsUnclosed(text: string)
    requires |text| > 0 && !IsBlankChar(text[|text| - 1]) && text[|text| - 1] != ']'
    ensures Decode(text).Err?
  {
    DecodeClosesArray(text);
    assert text + "" == text;
    TrimEndBlank(text, "");
  }

  // ---------------------------------------------------------------------
  // Round trip
  // ---------------------------------------------------------------------

  lemma DecodeEscapedChar(c: char, t: string)
    ensures DecodeChar(EscapeChar(c) + t) == Ok((c, t))
  {
    var s := EscapeChar(c) + t;
    if c == '"' || c == '\\' || c == '\n' || c == '\r' || c == '\t' || c as int == 0x08 || c as int == 0x0C {
      assert s[2..] == t;
    } else if IsControl(c) {
      var n := c as int;
      assert s[2] == '0' && s[3] == '0';
      assert s[4] == HexDigit(n / 16) && s[5] == HexDigit(n % 16);
      assert 4096 * HexValue(s[2]) + 256 * HexValue(s[3]) + 16 * HexValue(s[4]) + HexValue(s[5]) == n;
      assert s[6..] == t;
    } else {
      assert s[1..] == t;
    }
  }

  lemma {:induction false} DecodeEncodedChars(x: string, rest: string)
    ensures DecodeChars(EncodeChars(x) + "\"" + rest) == Ok((x, rest))
    decreases |x|
  {
    var s := EncodeChars(x) + "\"" + rest;
    if |x| == 0 {
      assert s == "\"" + rest;
      assert s[1..] == rest;
    } else {
      var tail := EncodeChars(x[1..]) + "\"" + rest;
      assert s == EscapeChar(x[0]) + tail;
      DecodeEscapedChar(x[0], tail);
      DecodeEncodedChars(x[1..], rest);
      assert [x[0]] + x[1..] == x;
    }
  }

  lemma DecodeQuoted(x: string, rest: string)
    ensures DecodeString(Quote(x) + rest) == Ok((x, rest))
  {
    var s := Quote(x) + rest;
    assert s[1..] == EncodeChars(x) + "\"" + rest;
    DecodeEncodedChars(x, rest);
  }

  lemma DecodeMemberFrom(s: string, key: string, afterKey: string, value: string, rest: string)
    requires DecodeString(s) == Ok((key, afterKey))
    requires |afterKey| > 1 && afterKey[0] == ':' && afterKey[1] == '"'
    requires DecodeString(afterKey[1..]) == Ok((value, rest))
    ensures DecodeMember(s) == Ok((Member(key, value), rest))
  {
    SkipBlankStops(afterKey);
    SkipBlankStops(afterKey[1..]);
  }

  lemma DecodeEncodedMember(m: Member, rest: string)
    ensures DecodeMember(EncodeMember(m) + rest) == Ok((m, rest))
  {
    var k, v := Quote(m.key), Quote(m.value);
    var after := ":" + (v + rest);
    assert EncodeMember(m) + rest == k + after by {
      Reassociate(k, ":", v, rest, "");
    }
    assert after[1..] == v + rest;
    DecodeQuoted(m.key, after);
    DecodeQuoted(m.value, rest);
    DecodeMemberFrom(k + after, m.key, after, m.value, rest);
  }

  lemma Reassociate(a: string, b: string, c: string, d: string, e: string)
    ensures a + b + c + d + e == a + (b + (c + d + e))
  {
  }

  lemma DecodeMembersClose(s: string, m: Member, rest: string)
    requires DecodeMember(s) == Ok((m, "}" + rest))
    ensures DecodeMembers(s) == Ok(([m], rest))
  {
    SkipBlankStops("}" + rest);
    assert ("}" + rest)[1..] == rest;
  }

  lemma DecodeMembersComma(s: string, m: Member, tail: string)
    requires DecodeMember(s) == Ok((m, "," + tail))
    requires |tail| > 0 && !IsBlankChar(tail[0])
    requires DecodeMembers(tail).Ok?
    ensures DecodeMembers(s) == Ok(([m] + DecodeMembers(tail).value.0, DecodeMembers(tail).value.1))
  {
    SkipBlankStops("," + tail);
    assert ("," + tail)[1..] == tail;
    SkipBlankStops(tail);
  }

  lemma DecodeEncodedMember1(m: Member, rest: string)
    ensures DecodeMembers(EncodeMember(m) + ("}" + rest)) == Ok(([m], rest))
  {
    DecodeEncodedMember(m, "}" + rest);
    DecodeMembersClose(EncodeMember(m) + ("}" + rest), m, rest);
  }

  lemma DecodeEncodedMemberThen(m: Member, tail: string, ms: seq<Member>, rest: string)
    requires |tail| > 0 && !IsBlankChar(tail[0])
    requires DecodeMembers(tail) == Ok((ms, rest))
    ensures DecodeMembers(EncodeMember(m) + ("," + tail)) == Ok(([m] + ms, rest))
  {
    DecodeEncodedMember(m, "," + tail);
    DecodeMembersComma(EncodeMember(m) + ("," + tail), m, tail);
  }

  lemma DecodeEncodedMembersCons(m: Member, ms: seq<Member>, a: string, b: string, rest: string)
    requires a == EncodeMember(m)
    requires |b| > 0 && b[0] == '"'
    requires DecodeMembers(b + "}" + rest) == Ok((ms, rest))
    ensures DecodeMembers(a + "," + b + "}" + rest) == Ok(([m] + ms, rest))
  {
    Reassociate(a, ",", b, "}", rest);
    DecodeEncodedMemberThen(m, b + "}" + rest, ms, rest);
  }

  lemma {:induction false} DecodeEncodedMembers(ms: seq<Member>, rest: string)
    requires |ms| > 0
    ensures DecodeMembers(EncodeMembers(ms) + "}" + rest) == Ok((ms, rest))
    decreases |ms|
  {
    if |ms| == 1 {
      assert EncodeMembers(ms) + "}" + rest == EncodeMember(ms[0]) + ("}" + rest);
      DecodeEncodedMember1(ms[0], rest);
      assert ms == [ms[0]];
    } else {
      var a, b := EncodeMember(ms[0]), EncodeMembers(ms[1..]);
      assert EncodeMembers(ms) == a + "," + b;
      assert [ms[0]] + ms[1..] == ms;
      DecodeEncodedMembers(ms[1..], rest);
      DecodeEncodedMembersCons(ms[0], ms[1..], a, b, rest);
    }
  }

  lemma DecodeObjectEmpty(rest: string)
    ensures DecodeObject("{" + ("}" + rest)) == Ok(([], rest))
  {
    var s := "{" + ("}" + rest);
    assert s[1..] == "}" + rest;
    SkipBlankStops(s[1..]);
    assert s[1..][1..] == rest;
  }

  lemma DecodeObjectOpen(inner: string, ms: seq<Member>, rest: string)
    requires |inner| > 0 && inner[0] == '"'
    requires DecodeMembers(inner) == Ok((ms, rest))
    ensures DecodeObject("{" + inner) == Ok((Assemble(ms), rest))
  {
    assert ("{" + inner)[1..] == inner;
    SkipBlankStops(inner);
  }

  lemma DecodeEncodedObject(d: Device, rest: string)
    requires DistinctKeys(d)
    ensures DecodeObject(EncodeObject(d) + rest) == Ok((d, rest))
  {
    if |d| == 0 {
      assert EncodeObject(d) + rest == "{" + ("}" + rest);
      DecodeObjectEmpty(rest);
    } else {
      var inner := EncodeMembers(d) + "}" + rest;
      assert EncodeObject(d) + rest == "{" + inner;
      AssembleDistinct(d);
      DecodeEncodedMembers(d, rest);
      DecodeObjectOpen(inner, d, rest);
    }
  }

  lemma DecodeObjectsClose(s: string, d: Device, rest: string)
    requires DecodeObject(s) == Ok((d, "]" + rest))
    ensures DecodeObjects(s) == Ok(([d], rest))
  {
    SkipBlankStops("]" + rest);
    assert ("]" + rest)[1..] == rest;
  }

  lemma DecodeObjectsComma(s: string, d: Device, tail: string)
    requires DecodeObject(s) == Ok((d, "," + tail))
    requires |tail| > 0 && !IsBlankChar(tail[0])
    requires DecodeObjects(tail).Ok?
    ensures DecodeObjects(s) == Ok(([d] + DecodeObjects(tail).value.0, DecodeObjects(tail).value.1))
  {
    SkipBlankStops("," + tail);
    assert ("," + tail)[1..] == tail;
    SkipBlankStops(tail);
  }

  lemma DecodeEncodedObject1(d: Device, rest: string)
    requires DistinctKeys(d)
    ensures DecodeObjects(EncodeObject(d) + ("]" + rest)) == Ok(([d], rest))
  {
    DecodeEncodedObject(d, "]" + rest);
    DecodeObjectsClose(EncodeObject(d) + ("]" + rest), d, rest);
  }

  lemma DecodeEncodedObjectThen(d: Device, tail: string, ds: seq<Device>, rest: string)
    requires DistinctKeys(d)
    requires |tail| > 0 && !IsBlankChar(tail[0])
    requires DecodeObjects(tail) == Ok((ds, rest))
    ensures DecodeObjects(EncodeObject(d) + ("," + tail)) == Ok(([d] + ds, rest))
  {
    DecodeEncodedObject(d, "," + tail);
    DecodeObjectsComma(EncodeObject(d) + ("," + tail), d, tail);
  }

  lemma DistinctTail(ds: seq<Device>)
    requires |ds| > 0
    requires forall i :: 0 <= i < |ds| ==> DistinctKeys(ds[i])
    ensures forall i :: 0 <= i < |ds[1..]| ==> DistinctKeys(ds[1..][i])
  {
    forall i | 0 <= i < |ds[1..]| ensures DistinctKeys(ds[1..][i]) {
      assert ds[1..][i] == ds[i + 1];
    }
  }

  lemma DecodeEncodedObjectsCons(d: Device, ds: seq<Device>, a: string, b: string, rest: string)
    requires DistinctKeys(d) && a == EncodeObject(d)
    requires |b| > 0 && b[0] == '{'
    requires DecodeObjects(b + "]" + rest) == Ok((ds, rest))
    ensures DecodeObjects(a + "," + b + "]" + rest) == Ok(([d] + ds, rest))
  {
    Reassociate(a, ",", b, "]", rest);
    DecodeEncodedObjectThen(d, b + "]" + rest, ds, rest);
  }

  lemma {:induction false} DecodeEncodedObjects(ds: seq<Device>, rest: string)
    requires |ds| > 0
    requires forall i :: 0 <= i < |ds| ==> DistinctKeys(ds[i])
    ensures DecodeObjects(EncodeObjects(ds) + "]" + rest) == Ok((ds, rest))
    decreases |ds|
  {
    if |ds| == 1 {
      assert EncodeObjects(ds) + "]" + rest == EncodeObject(ds[0]) + ("]" + rest);
      DecodeEncodedObject1(ds[0], rest);
      assert ds == [ds[0]];
    } else {
      var a, b := EncodeObject(ds[0]), EncodeObjects(ds[1..]);
      assert EncodeObjects(ds) == a + "," + b;
      assert [ds[0]] + ds[1..] == ds;
      DistinctTail(ds);
      DecodeEncodedObjects(ds[1..], rest);
      DecodeEncodedObjectsCons(ds[0], ds[1..], a, b, rest);
    }
  }

  lemma DecodeArrayOpen(inner: string)
    requires |inner| > 0 && inner[0] == '{'
    ensures DecodeArray("[" + inner) == DecodeObjects(inner)
  {
    assert ("[" + inner)[1..] == inner;
    SkipBlankStops(inner);
  }

  lemma DecodeArrayEmpty()
    ensures DecodeArray("[]") == Ok(([], ""))
  {
    assert "[]"[1..] == "]";
    SkipBlankStops("]");
  }

  lemma DecodeWhole(s: string, ds: seq<Device>)
    requires |s| > 0 && s[0] == '['
    requires DecodeArray(s) == Ok((ds, ""))
    ensures Decode(s) == Ok(ds)
  {
    SkipBlankStops(s);
  }

  /** `JSON.parse(JSON.stringify(ds))` gives back `ds`, for every list of
      device records (JavaScript objects, hence without repeated keys). */
  lemma DecodeEncode(ds: seq<Device>)
    requires forall i :: 0 <= i < |ds| ==> DistinctKeys(ds[i])
    ensures Decode(Encode(ds)) == Ok(ds)
  {
    var s := Encode(ds);
    if |ds| == 0 {
      assert s == "[]";
      DecodeArrayEmpty();
    } else {
      var inner := EncodeObjects(ds) + "]" + "";
      assert s == "[" + inner;
      DecodeEncodedObjects(ds, "");
      DecodeArrayOpen(inner);
    }
    DecodeWhole(s, ds);
  }
}
