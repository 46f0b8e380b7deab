/**
 * What assigning a connection URI does, case by case, and the round trip
 * through the canonical Path that the tcp and udp cases build.
 */
module UriProperties {
  import opened Runtime
  import opened Text
  import opened Numbers
  import opened Uris

  /** A null or empty string marks the URI invalid and touches nothing else. */
  lemma NullOrEmptyIsInvalid(u: UriFields, value: Option<string>)
    requires value == None || value == Some("")
    ensures AssignUriPath(u, value) == (u.(uriPath := value, isValid := false), None)
  {
  }

  /** Without two '/' characters only the stored string changes. */
  lemma FewerThanTwoSlashesChangeNothing(u: UriFields, s: string)
    requires s != []
    requires forall i, j :: 0 <= i < j < |s| && s[i] == '/' ==> s[j] != '/'
    ensures AssignUriPath(u, Some(s)) == (u.(uriPath := Some(s)), None)
  {
    var first := IndexOf(s, '/');
    if first > -1 {
      assert s[first] == '/';
      var last := LastIndexOf(s, '/');
      assert !(last > first);
    }
  }

  /** Hence a new object from such a string stays invalid and UNKNOWN. */
  lemma FewerThanTwoSlashesFromNew(s: string)
    requires s != []
    requires forall i, j :: 0 <= i < j < |s| && s[i] == '/' ==> s[j] != '/'
    ensures !AssignUriPath(Defaults, Some(s)).0.isValid
    ensures AssignUriPath(Defaults, Some(s)).0.uriType == Unknown
  {
    FewerThanTwoSlashesChangeNothing(Defaults, s);
  }

  /**
   * The setter raises exactly when the string starts with '/' and holds another
   * '/': the scheme would then be a substring of length -1.
   */
  lemma RaisesIffLeadingSlash(u: UriFields, value: Option<string>)
    ensures AssignUriPath(u, value).1.Some? <==>
            value.Some? && |value.value| >= 2 && value.value[0] == '/' && '/' in value.value[1..]
  {
    if value.Some? && value.value != [] {
      var s := value.value;
      var first := IndexOf(s, '/');
      var last := LastIndexOf(s, '/');
      if s[0] == '/' && '/' in s[1..] {
        var j :| 0 <= j < |s[1..]| && s[1..][j] == '/';
        assert s[j + 1] == '/';
        assert first == 0 && last > 0;
      }
      if first == 0 && last > first {
        assert s[1..][last - 1] == '/';
      }
    }
  }

  /**
   * For "<scheme><sep>/<skip><data>" the first '/' follows `sep`: the setter
   * switches on `scheme` with the ':'-separated fields of `data` (the character
   * right after the first '/' is skipped, whatever it is).
   */
  lemma {:induction false} SchemeDispatch(u: UriFields, scheme: string, sep: char, skip: char, data: string)
    requires '/' !in scheme && sep != '/'
    requires skip == '/' || '/' in data
    ensures var s := scheme + [sep, '/', skip] + data;
            AssignUriPath(u, Some(s)) == (Dispatch(u.(uriPath := Some(s)), scheme, Split(data, ':')), None)
  {
    var s := scheme + [sep, '/', skip] + data;
    SlashPositions(scheme, sep, skip, data);
    var slashIndex := IndexOf(s, '/');
    assert s != [] && slashIndex > 0 && LastIndexOf(s, '/') > slashIndex;
  }

  /** In "<scheme><sep>/<skip><data>", the first '/' is the one after `sep` and another '/' follows it. */
  lemma SlashPositions(scheme: string, sep: char, skip: char, data: string)
    requires '/' !in scheme && sep != '/'
    requires skip == '/' || '/' in data
    ensures var s := scheme + [sep, '/', skip] + data;
            && IndexOf(s, '/') == |scheme| + 1
            && LastIndexOf(s, '/') > |scheme| + 1
            && s[..|scheme|] == scheme
            && s[|scheme| + 3..] == data
  {
    var s := scheme + [sep, '/', skip] + data;
    var n := |scheme|;
    assert s[n + 1] == '/';
    forall k | 0 <= k <= n ensures s[k] != '/' {
      if k < n { assert s[k] == scheme[k]; }
    }
    if skip == '/' {
      assert s[n + 2] == '/';
    } else {
      var j :| 0 <= j < |data| && data[j] == '/';
      assert s[n + 3 + j] == '/';
    }
    assert s[..n] == scheme;
    assert s[n + 3..] == data;
  }


  /**
   * tcp: exactly two fields give a valid TCP URI whose Port is the parsed second
   * field (0 when it does not parse) and whose Path is canonical; any other count
   * only clears IsValid.
   */
  lemma TcpCases(u: UriFields, data: string)
    ensures var s := "tcp://" + data;
            var fields := Split(data, ':');
            var r := AssignUriPath(u, Some(s));
            && r.1 == None
            && (|fields| == 2 ==>
                  var port := TryParseInt32(fields[1]).1;
                  r.0 == u.(uriPath := Some(s), ip := Some(fields[0]), port := port, isValid := true,
                            path := Some("tcp://" + fields[0] + ":" + ToDecimalString(port)), uriType := Tcp))
            && (|fields| != 2 ==> r.0 == u.(uriPath := Some(s), isValid := false))
  {
    assert "tcp://" + data == "tcp" + [':', '/', '/'] + data;
    SchemeDispatch(u, "tcp", ':', '/', data);
  }

  /**
   * udp: two or more fields give a valid UDP URI; the IP loses its surrounding
   * '@', a third field sets BindIP and a fourth LocalPort, and the rest keep their
   * values. A single field only clears IsValid.
   */
  lemma UdpCases(u: UriFields, data: string)
    ensures var s := "udp://" + data;
            var fields := Split(data, ':');
            var r := AssignUriPath(u, Some(s));
            && r.1 == None
            && (|fields| >= 2 ==>
                  var ip := Trim(fields[0], {'@'});
                  var port := TryParseInt32(fields[1]).1;
                  r.0 == u.(uriPath := Some(s), ip := Some(ip), port := port,
                            bindIP := if |fields| >= 3 then Some(fields[2]) else u.bindIP,
                            localPort := if |fields| >= 4 then TryParseInt32(fields[3]).1 else u.localPort,
                            path := Some("udp://" + ip + ":" + ToDecimalString(port)),
                            uriType := Udp, isValid := true))
            && (|fields| < 2 ==> r.0 == u.(uriPath := Some(s), isValid := false))
  {
    assert "udp://" + data == "udp" + [':', '/', '/'] + data;
    SchemeDispatch(u, "udp", ':', '/', data);
  }

  /** serial: exactly two fields give SERIAL; any other count leaves every field but the string alone. */
  lemma SerialCases(u: UriFields, data: string)
    ensures var s := "serial://" + data;
            var fields := Split(data, ':');
            var r := AssignUriPath(u, Some(s));
            && r.1 == None
            && (|fields| == 2 ==>
                  r.0 == u.(uriPath := Some(s), serialPort := Some(fields[0]),
                            serialBPS := TryParseInt32(fields[1]).1, isValid := true, uriType := Serial))
            && (|fields| != 2 ==> r.0 == u.(uriPath := Some(s)))
  {
    assert "serial://" + data == "serial" + [':', '/', '/'] + data;
    SchemeDispatch(u, "serial", ':', '/', data);
  }

  /** sdp: exactly four fields give SDP with Path, IP, Port and BindIP; any other count changes nothing else. */
  lemma SdpCases(u: UriFields, data: string)
    ensures var s := "sdp://" + data;
            var fields := Split(data, ':');
            var r := AssignUriPath(u, Some(s));
            && r.1 == None
            && (|fields| == 4 ==>
                  r.0 == u.(uriPath := Some(s), path := Some(fields[0]), ip := Some(fields[1]),
                            port := TryParseInt32(fields[2]).1, isValid := true,
                            bindIP := Some(fields[3]), uriType := Sdp))
            && (|fields| != 4 ==> r.0 == u.(uriPath := Some(s)))
  {
    assert "sdp://" + data == "sdp" + [':', '/', '/'] + data;
    SchemeDispatch(u, "sdp", ':', '/', data);
  }

  /** Any other scheme resets the type to UNKNOWN and leaves IsValid as it was. */
  lemma UnknownScheme(u: UriFields, scheme: string, data: string)
    requires '/' !in scheme
    requires scheme != "tcp" && scheme != "udp" && scheme != "serial" && scheme != "sdp"
    ensures var s := scheme + "://" + data;
            AssignUriPath(u, Some(s)) == (u.(uriPath := Some(s), uriType := Unknown), None)
  {
    assert scheme + "://" + data == scheme + [':', '/', '/'] + data;
    SchemeDispatch(u, scheme, ':', '/', data);
  }

  /**
   * Round trip: assigning the Path of a valid TCP or UDP URI, to any object,
   * yields a valid URI of the same type with the same IP, Port and Path.
   */
  lemma ReparseCanonicalPath(u: UriFields, w: UriFields)
    requires Canonical(u) && u.isValid && (u.uriType == Tcp || u.uriType == Udp)
    ensures var r := AssignUriPath(w, u.path);
            && r.1 == None && r.0.isValid && r.0.uriType == u.uriType
            && r.0.ip == u.ip && r.0.port == u.port && r.0.path == u.path
            && (u.uriType == Tcp ==>
                  r.0 == w.(uriPath := u.path, ip := u.ip, port := u.port, isValid := true,
                            path := u.path, uriType := Tcp))
  {
    if u.uriType == Tcp {
      ReparseTcpPath(u, w);
    } else {
      ReparseUdpPath(u, w);
    }
  }

  /** The tcp half of the round trip: every field the tcp case writes comes back as it was. */
  lemma ReparseTcpPath(u: UriFields, w: UriFields)
    requires Canonical(u) && u.isValid && u.uriType == Tcp
    ensures AssignUriPath(w, u.path) ==
            (w.(uriPath := u.path, ip := u.ip, port := u.port, isValid := true, path := u.path, uriType := Tcp), None)
  {
    TcpTwoFields(w, u.ip.value, ToDecimalString(u.port));
    TryParseFormatted(u.port);
  }

  /** "tcp://" followed by two ':'-free fields: the tcp case, with the second field parsed as the Port. */
  lemma TcpTwoFields(w: UriFields, ip: string, num: string)
    requires ':' !in ip && ':' !in num
    ensures var path := Some("tcp://" + ip + ":" + num);
            var port := TryParseInt32(num).1;
            AssignUriPath(w, path) ==
            (w.(uriPath := path, ip := Some(ip), port := port, isValid := true,
                path := Some("tcp://" + ip + ":" + ToDecimalString(port)), uriType := Tcp), None)
  {
    var data := ip + ":" + num;
    assert Join([ip, num], ':') == data;
    SplitJoin([ip, num], ':');
    assert "tcp://" + ip + ":" + num == "tcp://" + data;
    TcpCases(w, data);
  }

  /** The udp half of the round trip: IP, Port and Path come back; BindIP and LocalPort stay as `w` had them. */
  lemma ReparseUdpPath(u: UriFields, w: UriFields)
    requires Canonical(u) && u.isValid && u.uriType == Udp
    ensures AssignUriPath(w, u.path) ==
            (w.(uriPath := u.path, ip := u.ip, port := u.port, isValid := true, path := u.path, uriType := Udp), None)
  {
    ReparseUdpText(w, u.ip.value, u.port);
  }

  /** Assigning "udp://IP:Port" for an IP with no ':' and no surrounding '@' sets exactly that IP and Port. */
  lemma ReparseUdpText(w: UriFields, ip: string, port: Int32)
    requires ':' !in ip && Trim(ip, {'@'}) == ip
    ensures var path := Some("udp://" + ip + ":" + ToDecimalString(port));
            AssignUriPath(w, path) ==
            (w.(uriPath := path, ip := Some(ip), port := port, isValid := true, path := path, uriType := Udp), None)
  {
    UdpTwoFields(w, ip, ToDecimalString(port));
    TryParseFormatted(port);
  }

  /** "udp://" followed by two ':'-free fields: the udp case with neither BindIP nor LocalPort. */
  lemma UdpTwoFields(w: UriFields, ip: string, num: string)
    requires ':' !in ip && ':' !in num
    ensures var path := Some("udp://" + ip + ":" + num);
            var trimmed := Trim(ip, {'@'});
            var port := TryParseInt32(num).1;
            AssignUriPath(w, path) ==
            (w.(uriPath := path, ip := Some(trimmed), port := port, isValid := true,
                path := Some("udp://" + trimmed + ":" + ToDecimalString(port)), uriType := Udp), None)
  {
    var path := "udp://" + ip + ":" + num;
    var v := w.(uriPath := Some(path));
    UdpPairPath(w, ip, num);
    UdpOfPair(v, ip, num);
  }

  /** "udp://ip:num" with ':'-free parts reaches the udp case with the two fields ip and num. */
  lemma UdpPairPath(w: UriFields, ip: string, num: string)
    requires ':' !in ip && ':' !in num
    ensures var path := "udp://" + ip + ":" + num;
            AssignUriPath(w, Some(path)) == (AssignUdp(w.(uriPath := Some(path)), [ip, num]), None)
  {
    var path := "udp://" + ip + ":" + num;
    assert "udp" + "://" + ip + ":" + num == path;
    PairPath(w, "udp", ip, num);
  }

  /** "scheme://ip:num" with ':'-free parts switches on `scheme` with the two fields ip and num. */
  lemma PairPath(w: UriFields, scheme: string, ip: string, num: string)
    requires '/' !in scheme && ':' !in ip && ':' !in num
    ensures var path := scheme + "://" + ip + ":" + num;
            AssignUriPath(w, Some(path)) == (Dispatch(w.(uriPath := Some(path)), scheme, [ip, num]), None)
  {
    var data := ip + ":" + num;
    assert Join([ip, num], ':') == data;
    SplitJoin([ip, num], ':');
    assert scheme + "://" + ip + ":" + num == scheme + [':', '/', '/'] + data;
    SchemeDispatch(w, scheme, ':', '/', data);
  }


  /** The udp case with exactly two fields leaves BindIP and LocalPort alone. */
  lemma UdpOfPair(v: UriFields, ip: string, num: string)
    ensures var trimmed := Trim(ip, {'@'});
            var port := TryParseInt32(num).1;
            AssignUdp(v, [ip, num]) ==
            v.(ip := Some(trimmed), port := port, isValid := true,
               path := Some("udp://" + trimmed + ":" + ToDecimalString(port)), uriType := Udp)
  {
  }

  /**
   * Only the tcp case with two fields turns a URI of another type into TCP, and
   * it leaves BindIP, SerialPort, SerialBPS and LocalPort as they were.
   */
  lemma BecomingTcpKeepsOtherFields(u: UriFields, value: Option<string>)
    requires u.uriType != Tcp && AssignUriPath(u, value).0.uriType == Tcp
    ensures var r := AssignUriPath(u, value).0;
            r.bindIP == u.bindIP && r.serialPort == u.serialPort &&
            r.serialBPS == u.serialBPS && r.localPort == u.localPort
  {
    var v := value.value;
    var slashIndex := IndexOf(v, '/');
    var w := u.(uriPath := value);
    var scheme, fields := v[..slashIndex - 1], Split(v[slashIndex + 2..], ':');
    assert AssignUriPath(u, value).0 == Dispatch(w, scheme, fields);
    OnlyTcpCaseMakesTcp(w, scheme, fields);
  }

  /** The switch yields TCP from another type only through the tcp case with two fields. */
  lemma OnlyTcpCaseMakesTcp(w: UriFields, scheme: string, fields: seq<string>)
    requires w.uriType != Tcp && Dispatch(w, scheme, fields).uriType == Tcp
    ensures scheme == "tcp" && |fields| == 2
  {
  }

  /**
   * `new ConnUri(u.Path)` for a new valid TCP or UDP URI `u`: same type, IP, Port
   * and Path; for TCP the two objects differ only in the stored string.
   */
  lemma FreshRoundTrip(s: Option<string>)
    requires var r := AssignUriPath(Defaults, s);
             r.1 == None && r.0.isValid && (r.0.uriType == Tcp || r.0.uriType == Udp)
    ensures var u := AssignUriPath(Defaults, s).0;
            var r := AssignUriPath(Defaults, u.path);
            && r.1 == None && r.0.isValid && r.0.uriType == u.uriType
            && r.0.ip == u.ip && r.0.port == u.port && r.0.path == u.path
            && (u.uriType == Tcp ==> r.0 == u.(uriPath := u.path))
  {
    var u := AssignUriPath(Defaults, s).0;
    assert Canonical(Defaults);
    AssignPreservesCanonical(Defaults, s);
    ReparseCanonicalPath(u, Defaults);
    if u.uriType == Tcp {
      BecomingTcpKeepsOtherFields(Defaults, s);
    }
  }
}
