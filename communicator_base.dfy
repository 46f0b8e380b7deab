/**
 * CommunicatorFactory and the state the TCP and UDP communicators share in
 * CommunicatorBase: the three event registries, the four numeric components
 * of the remote address, and the dispose flag.
 */
module Communicators {
  import opened Runtime
  import opened Text
  import opened Numbers
  import opened Uris
  import opened Events
  import opened UriProperties

  /** The communicator the factory constructs; its internals are not modelled. */
  datatype CommunicatorTag = TcpNetCommunicator(circular: bool) | UdpNetCommunicator(circular: bool)

  /** The switch on ConnUri.TYPE both factory overloads share. */
  function CommunicatorFor(t: UriType, circular: bool): (r: Option<CommunicatorTag>)
    ensures r == Some(TcpNetCommunicator(circular)) <==> t == Tcp
    ensures r == Some(UdpNetCommunicator(circular)) <==> t == Udp
    ensures r == None <==> t != Tcp && t != Udp
  {
    match t
    case Tcp => Some(TcpNetCommunicator(circular))
    case Udp => Some(UdpNetCommunicator(circular))
    case _ => None
  }

  /**
   * CreateCommunicator(ConnUri uri, ...): TCP for TCP, UDP for UDP, null for any
   * other type. Only the type is read, never IsValid; a null uri throws.
   */
  function CreateCommunicator(uri: ConnUri?, circular: bool): (r: Result<Option<CommunicatorTag>, Fault>)
    reads uri
    ensures uri == null <==> r == Failure(NullReference)
    ensures uri != null ==> (r == Success(Some(TcpNetCommunicator(circular))) <==> uri.uriType == Tcp)
    ensures uri != null ==> (r == Success(Some(UdpNetCommunicator(circular))) <==> uri.uriType == Udp)
    ensures uri != null ==> (r == Success(None) <==> uri.uriType != Tcp && uri.uriType != Udp)
  {
    if uri == null then Failure(NullReference) else Success(CommunicatorFor(uri.uriType, circular))
  }

  /**
   * CreateCommunicator(string uriString, ...): parses the string into a new
   * ConnUri (whose exception propagates), returns null when it is invalid, and
   * otherwise switches on its type like the other overload.
   */
  function CreateCommunicatorFromString(uriString: Option<string>, circular: bool): (r: Result<Option<CommunicatorTag>, Fault>)
    ensures var (u, fault) := AssignUriPath(Defaults, uriString);
            && (r.Failure? <==> fault.Some?)
            && (r.Failure? ==> r.error == ArgumentOutOfRange)
            && (r.Success? && r.value.Some? ==> u.isValid)
            && (r == Success(Some(TcpNetCommunicator(circular))) <==> fault == None && u.isValid && u.uriType == Tcp)
            && (r == Success(Some(UdpNetCommunicator(circular))) <==> fault == None && u.isValid && u.uriType == Udp)
            && (fault == None && u.isValid && u.uriType != Tcp && u.uriType != Udp ==> r == Success(None))
  {
    var (u, fault) := AssignUriPath(Defaults, uriString);
    if fault.Some? then Failure(fault.value)
    else if !u.isValid then Success(None)
    else Success(CommunicatorFor(u.uriType, circular))
  }

  /** On a valid URI the string overload agrees with the ConnUri overload on the parsed object. */
  lemma StringOverloadAgrees(uriString: Option<string>, uri: ConnUri, circular: bool)
    requires AssignUriPath(Defaults, uriString).1 == None
    requires uri.Fields() == AssignUriPath(Defaults, uriString).0 && uri.isValid
    ensures CreateCommunicatorFromString(uriString, circular) == CreateCommunicator(uri, circular)
  {
  }

  /**
   * "tcp://<ip>:<port>" always yields a TCP communicator, even when <port> is
   * not a number: the parser still marks such a URI valid.
   */
  lemma TcpStringCreatesTcp(ip: string, portText: string, circular: bool)
    requires ':' !in ip && ':' !in portText
    ensures CreateCommunicatorFromString(Some("tcp://" + ip + ":" + portText), circular)
            == Success(Some(TcpNetCommunicator(circular)))
  {
    var data := ip + [':'] + portText;
    assert "tcp://" + ip + ":" + portText == "tcp://" + data;
    assert Join([ip, portText], ':') == data;
    SplitJoin([ip, portText], ':');
    TcpCases(Defaults, data);
  }

  /** A valid SERIAL or SDP string still yields null. */
  lemma SerialOrSdpCreatesNothing(uriString: Option<string>, circular: bool)
    requires AssignUriPath(Defaults, uriString).1 == None
    requires AssignUriPath(Defaults, uriString).0.uriType in {Serial, Sdp}
    ensures CreateCommunicatorFromString(uriString, circular) == Success(None)
  {
  }

  /** The arguments of the three events a communicator raises. */
  datatype CommEvent =
    | DataReady(ip: Option<string>, port: Int32, time: Int64, bytes: array?<Byte>, offset: Int32,
                length: Int32, id: Option<string>, ipChunks: array?<UInt16>)
    | ConnectionState(id: Option<string>, uri: ConnUri?, connected: bool)
    | DataRate(id: Option<string>, mbpsRX: Float32, mbpsTX: Float32)

  /** The index of the first piece from `i` on that ushort.Parse rejects, or |pieces|. */
  function FirstUnparsable(pieces: seq<string>, i: nat): (k: nat)
    requires i <= |pieces|
    ensures i <= k <= |pieces|
    ensures forall j :: i <= j < k ==> ParseUInt16(pieces[j]).Success?
    ensures k < |pieces| ==> ParseUInt16(pieces[k]).Failure?
    decreases |pieces| - i
  {
    if i == |pieces| || ParseUInt16(pieces[i]).Failure? then i else FirstUnparsable(pieces, i + 1)
  }

  /**
   * The loop of SetIPChunks from index `i` on: each piece parsed with ushort.Parse
   * and stored at its index, until a piece fails to parse and the exception
   * propagates with the earlier indices already written. So the pieces from `i`
   * up to the first unparsable one are stored, every other index keeps its
   * value, and the exception is that piece's, if there is one.
   */
  function WriteChunks(chunks: seq<UInt16>, pieces: seq<string>, i: nat): (r: (seq<UInt16>, Option<Fault>))
    requires |chunks| == 4 && |pieces| == 4 && i <= 4
    ensures |r.0| == 4
    ensures var k := FirstUnparsable(pieces, i);
            && (k == 4 ==> r.1 == None)
            && (k < 4 ==> r.1 == Some(ParseUInt16(pieces[k]).error))
            && forall j :: 0 <= j < 4 ==>
                 r.0[j] == if i <= j < k then ParseUInt16(pieces[j]).value else chunks[j]
    decreases 4 - i
  {
    if i == 4 then (chunks, None)
    else
      match ParseUInt16(pieces[i])
      case Failure(e) => (chunks, Some(e))
      case Success(v) => WriteChunks(chunks[i := v], pieces, i + 1)
  }

  /**
   * The effect of SetIPChunks(ip) on IpChunks: a null ip throws; four pieces
   * that all parse fill IpChunks; a bad piece throws with only the indices
   * before it overwritten; any other piece count leaves IpChunks as it was.
   */
  function SetIPChunksEffect(chunks: seq<UInt16>, ip: Option<string>): (r: (seq<UInt16>, Option<Fault>))
    requires |chunks| == 4
    ensures |r.0| == 4
    ensures ip.None? ==> r == (chunks, Some(NullReference))
    ensures ip.Some? ==>
              var pieces := Split(ip.value, '.');
              && (|pieces| != 4 ==> r == (chunks, None))
              && (|pieces| == 4 ==>
                    var k := FirstUnparsable(pieces, 0);
                    && (r.1 == None <==> k == 4)
                    && (k < 4 ==> r.1 == Some(ParseUInt16(pieces[k]).error))
                    && (forall j :: 0 <= j < k ==> r.0[j] == ParseUInt16(pieces[j]).value)
                    && (forall j :: k <= j < 4 ==> r.0[j] == chunks[j]))
  {
    match ip
    case None => (chunks, Some(NullReference))
    case Some(s) =>
      var pieces := Split(s, '.');
      if |pieces| == 4 then WriteChunks(chunks, pieces, 0) else (chunks, None)
  }

  class CommunicatorBase {
    var dataReadyEvent: seq<HandlerId>
    var connectionStateEvent: seq<HandlerId>
    var dataRateEvent: seq<HandlerId>
    var ipChunks: array<UInt16>
    var disposedValue: bool
    /** Every handler call the events have made, oldest first. */
    var calls: seq<Delivery<CommEvent>>

    ghost predicate Valid()
      reads this
    {
      ipChunks.Length == 4
    }

    constructor ()
      ensures Valid() && fresh(ipChunks) && ipChunks[..] == [0, 0, 0, 0]
      ensures dataReadyEvent == [] && connectionStateEvent == [] && dataRateEvent == []
      ensures !disposedValue && calls == []
    {
      dataReadyEvent, connectionStateEvent, dataRateEvent := [], [], [];
      ipChunks := new UInt16[4](_ => 0);
      disposedValue := false;
      calls := [];
    }

    /** `DataReadyEvent += h`. */
    method SubscribeDataReady(h: HandlerId)
      modifies this`dataReadyEvent
      ensures dataReadyEvent == old(dataReadyEvent) + [h]
    {
      dataReadyEvent := dataReadyEvent + [h];
    }

    /** `ConnectionStateEvent += h`. */
    method SubscribeConnectionState(h: HandlerId)
      modifies this`connectionStateEvent
      ensures connectionStateEvent == old(connectionStateEvent) + [h]
    {
      connectionStateEvent := connectionStateEvent + [h];
    }

    /** `DataRateEvent += h`. */
    method SubscribeDataRate(h: HandlerId)
      modifies this`dataRateEvent
      ensures dataRateEvent == old(dataRateEvent) + [h]
    {
      dataRateEvent := dataRateEvent + [h];
    }

    method FireDataEvent(ip: Option<string>, port: Int32, time: Int64, bytes: array?<Byte>, offset: Int32,
                         length: Int32, id: Option<string>, ipChunksArg: array?<UInt16>)
      modifies this`calls
      ensures calls == old(calls) + Notify(dataReadyEvent, DataReady(ip, port, time, bytes, offset, length, id, ipChunksArg))
    {
      calls := calls + Notify(dataReadyEvent, DataReady(ip, port, time, bytes, offset, length, id, ipChunksArg));
    }

    method FireConnectionEvent(id: Option<string>, uri: ConnUri?, connected: bool)
      modifies this`calls
      ensures calls == old(calls) + Notify(connectionStateEvent, ConnectionState(id, uri, connected))
    {
      calls := calls + Notify(connectionStateEvent, ConnectionState(id, uri, connected));
    }

    method FireDataRateEvent(id: Option<string>, mbpsRX: Float32, mbpsTX: Float32)
      modifies this`calls
      ensures calls == old(calls) + Notify(dataRateEvent, DataRate(id, mbpsRX, mbpsTX))
    {
      calls := calls + Notify(dataRateEvent, DataRate(id, mbpsRX, mbpsTX));
    }

    method SetIPChunks(ip: Option<string>) returns (fault: Option<Fault>)
      requires Valid()
      modifies ipChunks
      ensures (ipChunks[..], fault) == SetIPChunksEffect(old(ipChunks[..]), ip)
    {
      if ip.None? {
        // _ip.Split on a null string
        return Some(NullReference);
      }
      var chunks := Split(ip.value, '.');
      fault := None;
      if |chunks| == 4 {
        ghost var before := ipChunks[..];
        for i := 0 to 4
          invariant WriteChunks(before, chunks, 0) == WriteChunks(ipChunks[..], chunks, i)
        {
          var parsed := ParseUInt16(chunks[i]);
          if parsed.Failure? {
            return Some(parsed.error);
          }
          ipChunks[i] := parsed.value;
        }
      }
    }

    /** Empties the data-ready and connection-state registries; data-rate subscribers stay. */
    method UnsubscribeEventHandlers()
      modifies this`dataReadyEvent, this`connectionStateEvent
      ensures dataReadyEvent == [] && connectionStateEvent == []
    {
      dataReadyEvent := UnsubscribeAll(dataReadyEvent);
      connectionStateEvent := UnsubscribeAll(connectionStateEvent);
    }

    /** Dispose(bool disposing): acts once; every later call changes nothing. */
    method DisposeCore(disposing: bool)
      modifies this`dataReadyEvent, this`connectionStateEvent, this`disposedValue
      ensures disposedValue
      ensures old(disposedValue) || !disposing ==>
                dataReadyEvent == old(dataReadyEvent) && connectionStateEvent == old(connectionStateEvent)
      ensures !old(disposedValue) && disposing ==> dataReadyEvent == [] && connectionStateEvent == []
    {
      if !disposedValue {
        if disposing {
          UnsubscribeEventHandlers();
        }
        disposedValue := true;
      }
    }

    /** Dispose(): the first call unsubscribes and marks the object disposed, later calls do nothing. */
    method Dispose()
      modifies this`dataReadyEvent, this`connectionStateEvent, this`disposedValue
      ensures disposedValue
      ensures old(disposedValue) ==>
                dataReadyEvent == old(dataReadyEvent) && connectionStateEvent == old(connectionStateEvent)
      ensures !old(disposedValue) ==> dataReadyEvent == [] && connectionStateEvent == []
    {
      DisposeCore(true);
    }
  }
}
