/** The two page patterns exactly as src/Pages.mjs spells them, next to the
    router's real bodies. Each pattern rejects every body the router serves,
    while the parsers of module Pages, which follow the router's format,
    accept them all. */
module AsWritten {
  import opened Results
  import opened Text
  import Json
  import opened Pages

  /** The `;`-pieces the source's status pattern accepts: a status token,
      five digit fields and nothing after the last `;` (without the `m`
      flag, `$` is the end of the whole body). */
  predicate IsWrittenStatusRecord(fields: seq<string>) {
    && |fields| == 7
    && IsStatusToken(fields[0])
    && (forall i :: 1 <= i < 6 ==> IsDigits(fields[i]))
    && fields[6] == ""
  }

  /** The status parser with the source's pattern (and the counts read as
      decimal values, as in Pages.ParseBasicHomeResult). */
  function ParseBasicHomeResultAsWritten(body: string): (r: Result<StatusSnapshot>)
    ensures r.Ok? <==> IsWrittenStatusRecord(Split(body, ';'))
    ensures r.Err? ==> r.error == UnexpectedBody(PathOf(BasicHomeResult))
  {
    var fields := Split(body, ';');
    if IsWrittenStatusRecord(fields) then
      Ok(StatusSnapshot(fields[0], DecimalValue(fields[1]), DecimalValue(fields[2])))
    else
      Err(UnexpectedBody(PathOf(BasicHomeResult)))
  }

  /** No record the router writes (seven `;`-terminated fields, then blank
      lines) matches the source's pattern, although every one of them
      parses with Pages.ParseBasicHomeResult. */
  lemma StatusPatternRejectsRouterRecords(s: StatusSnapshot, others: seq<nat>, trailer: string)
    requires IsStatusToken(s.status)
    requires |others| == 4
    requires IsBlank(trailer)
    ensures ParseBasicHomeResultAsWritten(FormatBasicHomeResult(s, others, trailer)).Err?
    ensures ParseBasicHomeResult(FormatBasicHomeResult(s, others, trailer)) == Ok(s)
  {
    var body := FormatBasicHomeResult(s, others, trailer);
    BasicHomeResultRoundTrip(s, others, trailer);
    BasicHomeResultSound(body);
    assert |Split(body, ';')| == StatusFieldCount + 1;
  }

  const WrittenDevicePrefix := "device_changed=1 device="

  /** The characters JavaScript's `.` does not match. */
  predicate IsLineTerminator(c: char) {
    c == '\n' || c == '\r' || c == '\U{2028}' || c == '\U{2029}'
  }

  /** The device parser with the source's pattern: the flag `1`, a space
      and `device=` on the first line, and the JSON payload filling the rest
      of that line, which must end the body. */
  function ParseDeviceInfoAsWritten(body: string): (r: Result<seq<Json.Device>>)
    ensures r.Ok? ==> StartsWith(body, WrittenDevicePrefix)
    ensures r.Ok? ==> forall i :: 0 <= i < |body| ==> !IsLineTerminator(body[i])
    ensures r.Err? ==> IsParseError(r.error)
  {
    if StartsWith(body, WrittenDevicePrefix)
       && forall i :: |WrittenDevicePrefix| <= i < |body| ==> !IsLineTerminator(body[i])
    then
      assert forall i :: 0 <= i < |WrittenDevicePrefix| ==> body[i] == WrittenDevicePrefix[i];
      match Json.Decode(body[|WrittenDevicePrefix|..])
      case Ok(ds) => Ok(ds)
      case Err(_) => Err(MalformedJson)
    else
      Err(UnexpectedBody(PathOf(DeviceInfo)))
  }

  /** No page the router serves (flag line, then the `device=` line) matches
      the source's pattern, although every one of them parses with
      Pages.ParseDeviceInfo. */
  lemma DevicePatternRejectsRouterPages(flag: string, ds: seq<Json.Device>, trailer: string)
    requires '\n' !in flag
    requires forall i :: 0 <= i < |ds| ==> Json.DistinctKeys(ds[i])
    requires IsBlank(trailer) && (trailer == "" || trailer[0] == '\n')
    ensures ParseDeviceInfoAsWritten(DeviceInfoBody(flag, ds, trailer)).Err?
    ensures ParseDeviceInfo(DeviceInfoBody(flag, ds, trailer)) == Ok(ds)
  {
    DeviceInfoRoundTrip(flag, ds, trailer);
    var body := DeviceInfoBody(flag, ds, trailer);
    var k := |DeviceChangedPrefix| + |flag|;
    assert body[k] == '\n';
  }
}
