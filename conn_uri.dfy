/**
 * ConnUri: a connection URI such as "tcp://127.0.0.1:9001" parsed into the
 * fields a communicator is initialised from. Assigning UriPath runs the parser;
 * it overwrites only the fields the matching branch names, so every other field
 * keeps the value an earlier assignment left there.
 */
module Uris {
  import opened Runtime
  import opened Text
  import opened Numbers

  /** ConnUri.TYPE. */
  datatype UriType = Unknown | Udp | Tcp | Serial | Sdp

  /** The state of a ConnUri object, one component per private field. */
  datatype UriFields = UriFields(
    uriPath: Option<string>,
    uriType: UriType,
    isValid: bool,
    ip: Option<string>,
    bindIP: Option<string>,
    serialPort: Option<string>,
    port: Int32,
    serialBPS: Int32,
    localPort: Int32,
    path: Option<string>)

  /** The fields of a newly allocated object, before its constructor runs. */
  const Defaults := UriFields(None, Unknown, false, None, None, None, 0, 0, 0, None)

  /**
   * What every assignment keeps true: a valid TCP or UDP object holds an IP
   * without ':' (and, for UDP, without surrounding '@') and a Path in the
   * canonical form "scheme://IP:Port" for that IP and Port.
   */
  predicate Canonical(u: UriFields)
  {
    && (u.isValid && u.uriType == Tcp ==>
          u.ip.Some? && ':' !in u.ip.value &&
          u.path == Some("tcp://" + u.ip.value + ":" + ToDecimalString(u.port)))
    && (u.isValid && u.uriType == Udp ==>
          u.ip.Some? && ':' !in u.ip.value && Trim(u.ip.value, {'@'}) == u.ip.value &&
          u.path == Some("udp://" + u.ip.value + ":" + ToDecimalString(u.port)))
  }

  /**
   * The tcp case, given the ':'-separated fields after "//": valid exactly with
   * two fields, and only IP, Port, IsValid, Path and UriType are written.
   */
  function AssignTcp(u: UriFields, fields: seq<string>): (r: UriFields)
    ensures r.isValid <==> |fields| == 2
    ensures r.(ip := u.ip, port := u.port, isValid := u.isValid, path := u.path, uriType := u.uriType) == u
  {
    if |fields| == 2 then
      var port := TryParseInt32(fields[1]).1;
      u.(ip := Some(fields[0]), port := port, isValid := true,
         path := Some("tcp://" + fields[0] + ":" + ToDecimalString(port)), uriType := Tcp)
    else
      u.(isValid := false)
  }

  /**
   * The udp case: valid exactly with two or more fields; UriPath, SerialPort and
   * SerialBPS are never written.
   */
  function AssignUdp(u: UriFields, fields: seq<string>): (r: UriFields)
    ensures r.isValid <==> |fields| >= 2
    ensures r.uriPath == u.uriPath && r.serialPort == u.serialPort && r.serialBPS == u.serialBPS
  {
    if |fields| >= 2 then
      var ip := Trim(fields[0], {'@'});
      var port := TryParseInt32(fields[1]).1;
      u.(ip := Some(ip), port := port,
         bindIP := if |fields| >= 3 then Some(fields[2]) else u.bindIP,
         localPort := if |fields| >= 4 then TryParseInt32(fields[3]).1 else u.localPort,
         path := Some("udp://" + ip + ":" + ToDecimalString(port)), uriType := Udp, isValid := true)
    else
      u.(isValid := false)
  }

  /**
   * The serial case: with two fields the URI becomes valid and only SerialPort,
   * SerialBPS, IsValid and UriType are written; any other count changes nothing.
   */
  function AssignSerial(u: UriFields, fields: seq<string>): (r: UriFields)
    ensures |fields| == 2 ==> r.isValid
    ensures |fields| != 2 ==> r == u
    ensures r.(serialPort := u.serialPort, serialBPS := u.serialBPS, isValid := u.isValid, uriType := u.uriType) == u
  {
    if |fields| == 2 then
      u.(serialPort := Some(fields[0]), serialBPS := TryParseInt32(fields[1]).1,
         isValid := true, uriType := Serial)
    else
      u
  }

  /**
   * The sdp case: with four fields the URI becomes valid and only Path, IP, Port,
   * IsValid, BindIP and UriType are written; any other count changes nothing.
   */
  function AssignSdp(u: UriFields, fields: seq<string>): (r: UriFields)
    ensures |fields| == 4 ==> r.isValid
    ensures |fields| != 4 ==> r == u
    ensures r.(path := u.path, ip := u.ip, port := u.port, isValid := u.isValid, bindIP := u.bindIP,
               uriType := u.uriType) == u
  {
    if |fields| == 4 then
      u.(path := Some(fields[0]), ip := Some(fields[1]), port := TryParseInt32(fields[2]).1,
         isValid := true, bindIP := Some(fields[3]), uriType := Sdp)
    else
      u
  }

  /**
   * The switch on the scheme text: it never writes the stored UriPath, only one
   * of the four schemes can make a URI valid, and any other leaves it UNKNOWN.
   */
  function Dispatch(u: UriFields, scheme: string, fields: seq<string>): (r: UriFields)
    ensures r.uriPath == u.uriPath
    ensures r.isValid && !u.isValid ==> scheme in {"tcp", "udp", "serial", "sdp"}
    ensures scheme !in {"tcp", "udp", "serial", "sdp"} ==> r.uriType == Unknown
  {
    if scheme == "tcp" then AssignTcp(u, fields)
    else if scheme == "udp" then AssignUdp(u, fields)
    else if scheme == "serial" then AssignSerial(u, fields)
    else if scheme == "sdp" then AssignSdp(u, fields)
    else u.(uriType := Unknown)
  }

  /**
   * The effect of the UriPath setter: the new fields, and the exception it
   * raises, if any. The raised exception leaves the stored UriPath assigned.
   */
  function AssignUriPath(u: UriFields, value: Option<string>): (r: (UriFields, Option<Fault>))
    ensures r.0.uriPath == value
    ensures r.1.Some? ==> r.1 == Some(ArgumentOutOfRange) && r.0 == u.(uriPath := value)
  {
    var u := u.(uriPath := value);
    match value
    case None => (u.(isValid := false), None)
    case Some(v) =>
      if v == [] then (u.(isValid := false), None)
      else
        var slashIndex := IndexOf(v, '/');
        if !(slashIndex > -1 && LastIndexOf(v, '/') > slashIndex) then (u, None)
        else if slashIndex == 0 then (u, Some(ArgumentOutOfRange))
        else (Dispatch(u, v[..slashIndex - 1], Split(v[slashIndex + 2..], ':')), None)
  }

  lemma UdpKeepsCanonical(u: UriFields, fields: seq<string>)
    requires Canonical(u)
    requires forall i :: 0 <= i < |fields| ==> ':' !in fields[i]
    ensures Canonical(AssignUdp(u, fields))
  {
    if |fields| >= 2 {
      TrimIdempotent(fields[0], {'@'});
      TrimKeepsAbsent(fields[0], {'@'}, ':');
    }
  }

  lemma DispatchKeepsCanonical(u: UriFields, scheme: string, fields: seq<string>)
    requires Canonical(u)
    requires forall i :: 0 <= i < |fields| ==> ':' !in fields[i]
    ensures Canonical(Dispatch(u, scheme, fields))
  {
    if scheme == "udp" {
      UdpKeepsCanonical(u, fields);
    }
  }

  /** Every assignment of UriPath keeps a canonical state canonical. */
  lemma AssignPreservesCanonical(u: UriFields, value: Option<string>)
    requires Canonical(u)
    ensures Canonical(AssignUriPath(u, value).0)
  {
    var w := u.(uriPath := value);
    assert Canonical(w);
    if value.Some? && value.value != [] {
      var v := value.value;
      var slashIndex := IndexOf(v, '/');
      if slashIndex > 0 && LastIndexOf(v, '/') > slashIndex {
        var scheme, fields := v[..slashIndex - 1], Split(v[slashIndex + 2..], ':');
        assert AssignUriPath(u, value).0 == Dispatch(w, scheme, fields);
        DispatchKeepsCanonical(w, scheme, fields);
      }
    }
  }

  class ConnUri {
    var uriType: UriType
    var isValid: bool
    var uriPath: Option<string>
    var ip: Option<string>
    var bindIP: Option<string>
    var serialPort: Option<string>
    var port: Int32
    var serialBPS: Int32
    var localPort: Int32
    var path: Option<string>

    /** The object's fields as one value; the public getters read these fields. */
    function Fields(): UriFields
      reads this
    {
      UriFields(uriPath, uriType, isValid, ip, bindIP, serialPort, port, serialBPS, localPort, path)
    }

    ghost predicate Valid()
      reads this
    {
      Canonical(Fields())
    }

    /** Allocation with C#'s default field values, before the constructor body. */
    constructor Blank()
      ensures Valid() && Fields() == Defaults
    {
      uriType, isValid, uriPath := Unknown, false, None;
      ip, bindIP, serialPort := None, None, None;
      port, serialBPS, localPort := 0, 0, 0;
      path := None;
    }

    /**
     * `new ConnUri(uriString)`: the constructor assigns UriPath, so it throws
     * whenever that assignment does.
     */
    static method Create(uriString: Option<string>) returns (r: Result<ConnUri, Fault>)
      ensures r.Failure? <==> AssignUriPath(Defaults, uriString).1.Some?
      ensures r.Failure? ==> r.error == ArgumentOutOfRange
      ensures r.Success? ==> fresh(r.value) && r.value.Valid() &&
                             r.value.Fields() == AssignUriPath(Defaults, uriString).0
    {
      var u := new ConnUri.Blank();
      var fault := u.SetUriPath(uriString);
      if fault.Some? {
        r := Failure(fault.value);
      } else {
        r := Success(u);
      }
    }

    /** The UriPath setter. */
    method SetUriPath(value: Option<string>) returns (fault: Option<Fault>)
      modifies this
      ensures old(Valid()) ==> Valid()
      ensures (Fields(), fault) == AssignUriPath(old(Fields()), value)
    {
      if Valid() {
        AssignPreservesCanonical(Fields(), value);
      }
      fault := None;
      uriPath := value;
      if value.None? || value.value == [] {
        isValid := false;
        return;
      }
      var v := value.value;
      var slashIndex := IndexOf(v, '/');
      if slashIndex > -1 && LastIndexOf(v, '/') > slashIndex {
        if slashIndex - 1 < 0 {
          // Substring(0, slashIndex - 1) with a negative length
          fault := Some(ArgumentOutOfRange);
          return;
        }
        var scheme := v[..slashIndex - 1];
        var data := v[slashIndex + 2..];
        var splitted := Split(data, ':');
        ghost var expected := Dispatch(Fields(), scheme, splitted);
        assert AssignUriPath(old(Fields()), value) == (expected, None);
        if scheme == "tcp" {
          SetTcp(splitted);
        } else if scheme == "udp" {
          SetUdp(splitted);
        } else if scheme == "serial" {
          SetSerial(splitted);
        } else if scheme == "sdp" {
          SetSdp(splitted);
        } else {
          uriType := Unknown;
        }
        assert Fields() == expected;
      }
    }

    /** `case "tcp":` of the setter. */
    method SetTcp(splitted: seq<string>)
      modifies this
      ensures Fields() == AssignTcp(old(Fields()), splitted)
    {
      if |splitted| == 2 {
        ip := Some(splitted[0]);
        var parsed := TryParseInt32(splitted[1]);
        port := parsed.1;
        if !parsed.0 {
          isValid := false;
        }
        isValid := true;
        path := Some("tcp://" + ip.value + ":" + ToDecimalString(port));
        uriType := Tcp;
      } else {
        isValid := false;
      }
    }

    /** `case "udp":` of the setter. */
    method SetUdp(splitted: seq<string>)
      modifies this
      ensures Fields() == AssignUdp(old(Fields()), splitted)
    {
      if |splitted| >= 2 {
        ghost var expected := AssignUdp(Fields(), splitted);
        ip := Some(Trim(splitted[0], {'@'}));
        var parsed := TryParseInt32(splitted[1]);
        port := parsed.1;
        assert ip == expected.ip && port == expected.port;
        if !parsed.0 {
          isValid := false;
        }
        if |splitted| >= 3 {
          bindIP := Some(splitted[2]);
        }
        assert bindIP == expected.bindIP;
        if |splitted| >= 4 {
          var parsedLocal := TryParseInt32(splitted[3]);
          localPort := parsedLocal.1;
          if !parsedLocal.0 {
            isValid := false;
          }
        }
        assert localPort == expected.localPort;
        path := Some("udp://" + ip.value + ":" + ToDecimalString(port));
        uriType := Udp;
        isValid := true;
        assert Fields() == expected;
      } else {
        isValid := false;
      }
    }

    /** `case "serial":` of the setter. */
    method SetSerial(splitted: seq<string>)
      modifies this
      ensures Fields() == AssignSerial(old(Fields()), splitted)
    {
      if |splitted| == 2 {
        serialPort := Some(splitted[0]);
        var parsed := TryParseInt32(splitted[1]);
        serialBPS := parsed.1;
        if !parsed.0 {
          isValid := false;
        }
        isValid := true;
        uriType := Serial;
      }
    }

    /** `case "sdp":` of the setter. */
    method SetSdp(splitted: seq<string>)
      modifies this
      ensures Fields() == AssignSdp(old(Fields()), splitted)
    {
      if |splitted| == 4 {
        path := Some(splitted[0]);
        ip := Some(splitted[1]);
        var parsed := TryParseInt32(splitted[2]);
        port := parsed.1;
        if !parsed.0 {
          isValid := false;
        }
        isValid := true;
        bindIP := Some(splitted[3]);
        uriType := Sdp;
      }
    }
  }
}
