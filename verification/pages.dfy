/** The page client (src/Pages.mjs): construction options, the URL each
    operation requests, the outcome of its HTTP round trip, and the two
    parsers for the status record and the device list.

    The HTTP transport is a parameter: a function from the requested URL to
    the router's response. Basic authentication is carried in the client's
    credentials but not modelled on the wire. */
module Pages {
  import opened Results
  import opened Text
  import Json

  const DefaultBaseUrl := "https://routerlogin.net"
  const DefaultUsername := "admin"

  /** Constructor options; an omitted option is None. */
  datatype PageOptions = PageOptions(baseUrl: Option<string>, username: Option<string>, password: Option<string>)

  /** JavaScript truthiness of a string option: present and non-empty. */
  predicate Supplied(o: Option<string>) {
    o.Some? && o.value != ""
  }

  /** A constructed page client: where it connects and as whom. */
  datatype Pages = Pages(baseUrl: string, username: string, password: string)

  /** The constructor. Without a password it fails with InvalidArgument;
      otherwise an unsupplied base URL or username takes its default and a
      supplied one is kept as given. */
  function New(opt: PageOptions): (r: Result<Pages>)
    ensures r.Err? <==> !Supplied(opt.password)
    ensures r.Err? ==> r.error == InvalidArgument
    ensures r.Ok? ==> r.value.password == opt.password.value
    ensures r.Ok? && Supplied(opt.baseUrl) ==> r.value.baseUrl == opt.baseUrl.value
    ensures r.Ok? && !Supplied(opt.baseUrl) ==> r.value.baseUrl == DefaultBaseUrl
    ensures r.Ok? && Supplied(opt.username) ==> r.value.username == opt.username.value
    ensures r.Ok? && !Supplied(opt.username) ==> r.value.username == DefaultUsername
    ensures r.Ok? ==> r.value.baseUrl != "" && r.value.username != "" && r.value.password != ""
  {
    if !Supplied(opt.password) then Err(InvalidArgument)
    else
      Ok(Pages(
        if Supplied(opt.baseUrl) then opt.baseUrl.value else DefaultBaseUrl,
        if Supplied(opt.username) then opt.username.value else DefaultUsername,
        opt.password.value))
  }

  // ---------------------------------------------------------------------
  // Requests
  // ---------------------------------------------------------------------

  datatype Operation = ChangeUser | BasicHomeResult | DeviceInfo | Logout

  /** The router page behind each operation. */
  function PathOf(op: Operation): string {
    match op
    case ChangeUser => "change_user.html"
    case BasicHomeResult => "basic_home_result.txt"
    case DeviceInfo => "DEV_device_info.htm"
    case Logout => "LOG_logout.htm"
  }

  /** `${baseUrl}/${path}`: the base URL, one slash, then the page. */
  function UrlOf(p: Pages, op: Operation): (u: string)
    ensures StartsWith(u, p.baseUrl + "/")
    ensures u[|p.baseUrl| + 1..] == PathOf(op)
  {
    var u := p.baseUrl + "/" + PathOf(op);
    assert u[..|p.baseUrl| + 1] == p.baseUrl + "/";
    u
  }

  /** The four operations address four different URLs of the same client. */
  lemma UrlsDistinct(p: Pages, a: Operation, b: Operation)
    requires a != b
    ensures UrlOf(p, a) != UrlOf(p, b)
  {
    var ua, ub := UrlOf(p, a), UrlOf(p, b);
    assert ua[|p.baseUrl| + 1..] == PathOf(a);
    assert ub[|p.baseUrl| + 1..] == PathOf(b);
    assert |PathOf(a)| != |PathOf(b)|;
  }

  /** What the transport answers for one GET: the final response, after
      any redirects the HTTP library followed. */
  datatype Response = Response(statusCode: int, body: string) | ConnectionFailed

  type Transport = string -> Response

  predicate IsSuccess(resp: Response) {
    resp.Response? && 200 <= resp.statusCode < 300
  }

  /** The body of a 2xx response; any other outcome is a request error. */
  function Receive(resp: Response): (r: Result<string>)
    ensures r.Ok? <==> IsSuccess(resp)
    ensures r.Ok? ==> r.value == resp.body
    ensures r.Err? ==> IsRequestError(r.error)
  {
    match resp
    case ConnectionFailed => Err(TransportError)
    case Response(code, body) => if 200 <= code < 300 then Ok(body) else Err(StatusCodeError(code))
  }

  /** One operation's observable behaviour: the URLs it requested, in order,
      and what it settled with. */
  datatype Exchange<T> = Exchange(requests: seq<string>, result: Result<T>)

  // ---------------------------------------------------------------------
  // The status record (basic_home_result.txt)
  // ---------------------------------------------------------------------

  datatype StatusSnapshot = StatusSnapshot(status: string, connectedSatellites: nat, connectedDevices: nat)

  /** The number of `;`-terminated fields of a status record. */
  const StatusFieldCount := 7

  /** The `[^ \t;]+` shape of the status field. */
  predicate IsStatusToken(s: string) {
    |s| > 0 && forall i :: 0 <= i < |s| ==> s[i] != ' ' && s[i] != '\t' && s[i] != ';'
  }

  /** The `;`-pieces of a well-formed record: the status, six digit fields,
      and blank text after the last `;`.
      The source's pattern admits only five digit fields and nothing after
      the last `;`, while the router (and the test of the happy path) sends
      `success;3;16;0;0;0;0;` followed by blank lines; the field count and
      the trailing blanks follow the router. */
  predicate IsStatusRecord(fields: seq<string>) {
    && |fields| == StatusFieldCount + 1
    && IsStatusToken(fields[0])
    && (forall i :: 1 <= i < StatusFieldCount ==> IsDigits(fields[i]))
    && IsBlank(fields[StatusFieldCount])
  }

  /** Parses the status page. The counts are the decimal values of the
      second and third fields (the source calls a non-existent
      `Number.parse`; the evident intent, reading the digits as a number, is
      modelled). */
  function ParseBasicHomeResult(body: string): (r: Result<StatusSnapshot>)
    ensures r.Ok? ==> IsStatusToken(r.value.status)
    ensures r.Ok? ==> StartsWith(body, r.value.status + ";")
    ensures r.Err? ==> r.error == UnexpectedBody(PathOf(BasicHomeResult))
  {
    var fields := Split(body, ';');
    if IsStatusRecord(fields) then
      SplitJoin(body, ';');
      assert body == fields[0] + ";" + Join(fields[1..], ';');
      Ok(StatusSnapshot(fields[0], DecimalValue(fields[1]), DecimalValue(fields[2])))
    else
      Err(UnexpectedBody(PathOf(BasicHomeResult)))
  }

  /** The record the router writes for a snapshot, with `others` in the four
      unused fields and `trailer` after the last `;`. */
  function FormatBasicHomeResult(s: StatusSnapshot, others: seq<nat>, trailer: string): string
    requires |others| == 4
  {
    Join([s.status, Decimal(s.connectedSatellites), Decimal(s.connectedDevices),
          Decimal(others[0]), Decimal(others[1]), Decimal(others[2]), Decimal(others[3]),
          trailer], ';')
  }

  lemma DigitsWithoutSemicolon(d: string)
    requires IsDigits(d)
    ensures ';' !in d
  {
  }

  lemma BlankWithoutSemicolon(t: string)
    requires IsBlank(t)
    ensures ';' !in t
  {
  }

  /** Every status record the router can write parses back to its snapshot,
      whatever the unused fields and the trailing blanks. */
  lemma BasicHomeResultRoundTrip(s: StatusSnapshot, others: seq<nat>, trailer: string)
    requires IsStatusToken(s.status)
    requires |others| == 4
    requires IsBlank(trailer)
    ensures ParseBasicHomeResult(FormatBasicHomeResult(s, others, trailer)) == Ok(s)
  {
    var fields := [s.status, Decimal(s.connectedSatellites), Decimal(s.connectedDevices),
                   Decimal(others[0]), Decimal(others[1]), Decimal(others[2]), Decimal(others[3]),
                   trailer];
    forall i | 1 <= i < StatusFieldCount ensures ';' !in fields[i] {
      DigitsWithoutSemicolon(fields[i]);
    }
    BlankWithoutSemicolon(trailer);
    assert ';' !in s.status;
    JoinSplit(fields, ';');
    assert IsStatusRecord(fields);
  }

  /** Whatever parses is a status record: the body is exactly its fields
      joined by `;`, the status is the first field, and the counts are the
      values of the next two. */
  lemma BasicHomeResultSound(body: string)
    requires ParseBasicHomeResult(body).Ok?
    ensures var fields := Split(body, ';');
      && body == Join(fields, ';')
      && IsStatusRecord(fields)
      && ParseBasicHomeResult(body).value.status == fields[0]
      && ParseBasicHomeResult(body).value.connectedSatellites == DecimalValue(fields[1])
      && ParseBasicHomeResult(body).value.connectedDevices == DecimalValue(fields[2])
  {
    SplitJoin(body, ';');
  }

  /** A body whose `;`-pieces do not have the record's shape is rejected:
      a missing or extra field, a non-digit count, a status with a blank in
      it, or anything but blanks after the last `;`. */
  lemma BasicHomeResultRejects(fields: seq<string>)
    requires |fields| > 0
    requires forall i :: 0 <= i < |fields| ==> ';' !in fields[i]
    requires !IsStatusRecord(fields)
    ensures ParseBasicHomeResult(Join(fields, ';')) == Err(UnexpectedBody(PathOf(BasicHomeResult)))
  {
    JoinSplit(fields, ';');
  }

  // ---------------------------------------------------------------------
  // The device list (DEV_device_info.htm)
  // ---------------------------------------------------------------------

  const DeviceChangedPrefix := "device_changed="
  const DevicePrefix := "device="

  /** The line pair the device page must start with, followed by blank
      lines only. The source's pattern wants `device_changed=1` and the
      `device=` part on the same line after a space, while the router (and
      the tests) put `device=` on the next line and send any flag value; the
      line structure follows the router, and the flag is not interpreted. */
  predicate IsDeviceInfoLines(lines: seq<string>) {
    && |lines| >= 2
    && StartsWith(lines[0], DeviceChangedPrefix)
    && StartsWith(lines[1], DevicePrefix)
    && (forall i :: 2 <= i < |lines| ==> IsBlank(lines[i]))
  }

  /** Parses the device page: the `device=` payload decoded as a JSON list
      of device records. */
  function ParseDeviceInfo(body: string): (r: Result<seq<Json.Device>>)
    ensures r.Ok? ==> StartsWith(body, DeviceChangedPrefix)
    ensures r.Err? ==> IsParseError(r.error)
  {
    var lines := Split(body, '\n');
    if IsDeviceInfoLines(lines) then
      SplitFirstIsPrefix(body, '\n');
      match Json.Decode(lines[1][|DevicePrefix|..])
      case Ok(ds) => Ok(ds)
      case Err(_) => Err(MalformedJson)
    else
      Err(UnexpectedBody(PathOf(DeviceInfo)))
  }

  /** The page the router serves for a device list: the flag line, the
      payload line, then `trailer`. */
  function DeviceInfoBody(flag: string, ds: seq<Json.Device>, trailer: string): string {
    DeviceChangedPrefix + flag + "\n" + DevicePrefix + Json.Encode(ds) + trailer
  }

  lemma BlankPieces(t: string)
    requires IsBlank(t)
    ensures forall i :: 0 <= i < |Split(t, '\n')| ==> IsBlank(Split(t, '\n')[i])
  {
    SplitPiecesFromText(t, '\n');
    var parts := Split(t, '\n');
    forall i, j | 0 <= i < |parts| && 0 <= j < |parts[i]| ensures IsBlankChar(parts[i][j]) {
      assert parts[i][j] in t;
    }
  }

  /** The lines of a flag line, a payload line and a blank trailer that is
      empty or starts a new line. */
  lemma DeviceInfoBodyLines(l0: string, l1: string, trailer: string)
    requires '\n' !in l0 && '\n' !in l1
    requires IsBlank(trailer) && (trailer == "" || trailer[0] == '\n')
    ensures var lines := Split(l0 + "\n" + l1 + trailer, '\n');
      && |lines| >= 2 && lines[0] == l0 && lines[1] == l1
      && forall i :: 2 <= i < |lines| ==> IsBlank(lines[i])
  {
    var lines := Split(l0 + "\n" + l1 + trailer, '\n');
    if trailer == "" {
      assert l0 + "\n" + l1 + trailer == l0 + ['\n'] + l1;
      SplitCons(l0, '\n', l1);
      SplitWithoutSep(l1, '\n');
    } else {
      var t := trailer[1..];
      assert l0 + "\n" + l1 + trailer == l0 + ['\n'] + (l1 + ['\n'] + t);
      SplitCons(l0, '\n', l1 + ['\n'] + t);
      SplitCons(l1, '\n', t);
      assert lines == [l0, l1] + Split(t, '\n');
      BlankPieces(t);
      assert forall i :: 2 <= i < |lines| ==> lines[i] == Split(t, '\n')[i - 2];
    }
  }

  lemma ParseDeviceInfoPayload(body: string, ds: seq<Json.Device>)
    requires IsDeviceInfoLines(Split(body, '\n'))
    requires Json.Decode(Split(body, '\n')[1][|DevicePrefix|..]) == Ok(ds)
    ensures ParseDeviceInfo(body) == Ok(ds)
  {
  }

  /** A device page whose `device=` line carries a payload that does not
      decode as a device list is rejected as malformed JSON. */
  lemma DeviceInfoRejectsPayload(flag: string, payload: string)
    requires '\n' !in flag && '\n' !in payload
    requires Json.Decode(payload).Err?
    ensures ParseDeviceInfo(DeviceChangedPrefix + flag + "\n" + DevicePrefix + payload) == Err(MalformedJson)
  {
    var l0 := DeviceChangedPrefix + flag;
    var l1 := DevicePrefix + payload;
    PrefixesSingleLine();
    NotInConcat(DeviceChangedPrefix, flag, '\n');
    NotInConcat(DevicePrefix, payload, '\n');
    DeviceInfoBodyLines(l0, l1, "");
    assert l0 + "\n" + l1 + "" == DeviceChangedPrefix + flag + "\n" + DevicePrefix + payload;
    assert l1[|DevicePrefix|..] == payload;
  }

  /** Every device page the router can serve parses back to its device list,
      whatever the flag value (a single line), for the empty list too, with
      or without trailing blank lines. */
  lemma DeviceInfoRoundTrip(flag: string, ds: seq<Json.Device>, trailer: string)
    requires '\n' !in flag
    requires forall i :: 0 <= i < |ds| ==> Json.DistinctKeys(ds[i])
    requires IsBlank(trailer) && (trailer == "" || trailer[0] == '\n')
    ensures ParseDeviceInfo(DeviceInfoBody(flag, ds, trailer)) == Ok(ds)
  {
    var l0 := DeviceChangedPrefix + flag;
    var l1 := DevicePrefix + Json.Encode(ds);
    var body := DeviceInfoBody(flag, ds, trailer);
    assert body == l0 + "\n" + l1 + trailer;
    assert IsDeviceInfoLines(Split(body, '\n')) && Split(body, '\n')[1] == l1 by {
      PrefixesSingleLine();
      NotInConcat(DeviceChangedPrefix, flag, '\n');
      NotInConcat(DevicePrefix, Json.Encode(ds), '\n');
      DeviceInfoBodyLines(l0, l1, trailer);
    }
    assert Json.Decode(l1[|DevicePrefix|..]) == Ok(ds) by {
      assert l1[|DevicePrefix|..] == Json.Encode(ds);
      Json.DecodeEncode(ds);
    }
    ParseDeviceInfoPayload(body, ds);
  }

  lemma PrefixesSingleLine()
    ensures '\n' !in DeviceChangedPrefix && '\n' !in DevicePrefix
  {
  }

  lemma NotInConcat(a: string, b: string, c: char)
    requires c !in a && c !in b
    ensures c !in a + b
  {
  }

  lemma SuffixWithout(s: string, k: nat, c: char)
    requires k <= |s| && c !in s
    ensures c !in s[k..]
  {
    forall i | 0 <= i < |s[k..]| ensures s[k..][i] != c {
      assert s[k..][i] == s[k + i];
    }
  }

  /** The text after the payload line: a line break and the remaining lines,
      or nothing. */
  function TrailerOf(lines: seq<string>): string
    requires |lines| >= 2
  {
    if |lines| == 2 then "" else "\n" + Join(lines[2..], '\n')
  }

  lemma TrailerBlank(lines: seq<string>)
    requires |lines| >= 2
    requires forall i :: 2 <= i < |lines| ==> IsBlank(lines[i])
    ensures IsBlank(TrailerOf(lines))
  {
    if |lines| > 2 {
      JoinBlank(lines[2..], '\n');
      var j := Join(lines[2..], '\n');
      var rest := TrailerOf(lines);
      forall i | 0 <= i < |rest| ensures IsBlankChar(rest[i]) {
        if i > 0 {
          assert rest[i] == j[i - 1];
        }
      }
    }
  }

  lemma JoinLines(lines: seq<string>)
    requires |lines| >= 2
    ensures Join(lines, '\n') == lines[0] + "\n" + lines[1] + TrailerOf(lines)
  {
    assert Join(lines[1..], '\n') == lines[1] + TrailerOf(lines) by {
      if |lines| > 2 {
        assert lines[1..][1..] == lines[2..];
      }
    }
  }

  /** Whatever parses is a device page: the flag line, the payload line whose
      JSON gives the list, then blank text. */
  lemma DeviceInfoSound(body: string)
    requires ParseDeviceInfo(body).Ok?
    ensures var lines := Split(body, '\n');
      var flag := lines[0][|DeviceChangedPrefix|..];
      var payload := lines[1][|DevicePrefix|..];
      && body == DeviceChangedPrefix + flag + "\n" + DevicePrefix + payload + TrailerOf(lines)
      && '\n' !in flag && '\n' !in payload
      && IsBlank(TrailerOf(lines))
      && Json.Decode(payload) == ParseDeviceInfo(body)
  {
    var lines := Split(body, '\n');
    assert IsDeviceInfoLines(lines);
    var flag := lines[0][|DeviceChangedPrefix|..];
    var payload := lines[1][|DevicePrefix|..];
    assert body == lines[0] + "\n" + lines[1] + TrailerOf(lines) by {
      SplitJoin(body, '\n');
      JoinLines(lines);
    }
    assert lines[0] == DeviceChangedPrefix + flag;
    assert lines[1] == DevicePrefix + payload;
    TrailerBlank(lines);
    SuffixWithout(lines[0], |DeviceChangedPrefix|, '\n');
    SuffixWithout(lines[1], |DevicePrefix|, '\n');
  }

  // ---------------------------------------------------------------------
  // The four operations
  // ---------------------------------------------------------------------

  /** GET change_user.html, which evicts any other admin session; the body
      is ignored. */
  function ChangeUserPage(p: Pages, transport: Transport): (x: Exchange<()>)
    ensures x.requests == [UrlOf(p, ChangeUser)]
    ensures x.result.Ok? <==> IsSuccess(transport(UrlOf(p, ChangeUser)))
    ensures x.result.Err? ==> IsRequestError(x.result.error)
  {
    var url := UrlOf(p, ChangeUser);
    Exchange([url], match Receive(transport(url)) case Ok(_) => Ok(()) case Err(e) => Err(e))
  }

  /** GET basic_home_result.txt and parse the status record. */
  function BasicHomeResultPage(p: Pages, transport: Transport): (x: Exchange<StatusSnapshot>)
    ensures x.requests == [UrlOf(p, BasicHomeResult)]
    ensures !IsSuccess(transport(UrlOf(p, BasicHomeResult))) ==> x.result.Err? && IsRequestError(x.result.error)
    ensures IsSuccess(transport(UrlOf(p, BasicHomeResult))) ==>
              x.result == ParseBasicHomeResult(transport(UrlOf(p, BasicHomeResult)).body)
  {
    var url := UrlOf(p, BasicHomeResult);
    Exchange([url],
      match Receive(transport(url))
      case Ok(body) => ParseBasicHomeResult(body)
      case Err(e) => Err(e))
  }

  /** GET DEV_device_info.htm and parse the device list. */
  function DeviceInfoPage(p: Pages, transport: Transport): (x: Exchange<seq<Json.Device>>)
    ensures x.requests == [UrlOf(p, DeviceInfo)]
    ensures !IsSuccess(transport(UrlOf(p, DeviceInfo))) ==> x.result.Err? && IsRequestError(x.result.error)
    ensures IsSuccess(transport(UrlOf(p, DeviceInfo))) ==>
              x.result == ParseDeviceInfo(transport(UrlOf(p, DeviceInfo)).body)
  {
    var url := UrlOf(p, DeviceInfo);
    Exchange([url],
      match Receive(transport(url))
      case Ok(body) => ParseDeviceInfo(body)
      case Err(e) => Err(e))
  }

  /** GET LOG_logout.htm, which ends the admin session; the body is
      ignored. */
  function LogoutPage(p: Pages, transport: Transport): (x: Exchange<()>)
    ensures x.requests == [UrlOf(p, Logout)]
    ensures x.result.Ok? <==> IsSuccess(transport(UrlOf(p, Logout)))
    ensures x.result.Err? ==> IsRequestError(x.result.error)
  {
    var url := UrlOf(p, Logout);
    Exchange([url], match Receive(transport(url)) case Ok(_) => Ok(()) case Err(e) => Err(e))
  }
}
