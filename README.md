# CommsLIBLite connection URIs, communicator base and frame-wrapper base in Dafny

This project models the sequential core of CommsLIBLite, a .NET library of TCP/UDP
communicators and message framers. It covers three parts.

- **`ConnUri`** (module `Uris`, properties in `UriProperties`). Assigning `UriPath` parses
  a string such as `tcp://127.0.0.1:9001` or `udp://@host@:5000:10.0.0.1:6000` into the
  fields `IP`, `Port`, `BindIP`, `LocalPort`, `SerialPort`, `SerialBPS`, `Path`, `UriType`
  and `IsValid`.
  - The class `ConnUri` keeps those fields.
  - `SetUriPath` is the setter, written as the statement sequence of the C# code.
  - It is proved equal to the pure function `AssignUriPath` on the record `UriFields`.
  - The lemmas about that function state each scheme's effect, the error case and the
    Path round trip.
- **`CommunicatorFactory` and `CommunicatorBase`** (module `Communicators`).
  - Both factory overloads.
  - The three event registries and their `Fire*` methods.
  - `SetIPChunks`, which parses "a.b.c.d" in place into the four-element `IpChunks` array.
  - `UnsubscribeEventHandlers` and `Dispose`.
- **`FrameWrapperBase<T>`** (module `FrameWrappers`).
  - `SetID`.
  - The `FrameAvailableEvent` registry and the `FireEvent` routing.
  - The default `Data2BytesSync`.

Supporting modules model the parts of .NET the code relies on:
- `Runtime`: null as `Option`, exceptions as `Result`/`Fault`, and `int`/`ushort`/`long` as
  bounded integer types.
- `Text`: `IndexOf`, `LastIndexOf`, `Split` keeping empty entries, and `Trim(chars)`.
- `Numbers`: integer parsing with `NumberStyles.Integer` and `Int32.ToString`.
- `Events`: a C# event as the ordered list of its subscribed handlers.
  - `+=` is modelled for one non-null, single-cast handler at a time.
  - Raising it appends one `Delivery` per subscriber to a call log.
  - `-=` removes the last subscription of that handler and keeps the others in order.

The library's doc comments describe the intended behaviour: "Construct a ConnUri object from
a valid string. Always check IsValid" (Base/ConnUri.cs:190), the accepted forms `tcp://IP:PORT`
and `udp://[IP]:PORT:[BIND_IP]:[BIND_PORT]` (Base/ConnUri.cs:9-14 and 40-47), and "Use or not a
Task to fire the FrameAvailableEvent" (FrameWrappers/FrameWrapperBase.cs:31). Where the code and
those comments differ, the model follows the code:
- An invalid URI does not always come out as "not valid". A string that starts with '/'
  and holds another '/' throws `ArgumentOutOfRangeException`: the scheme is then
  `Substring(0, -1)`.
- A port that does not parse gives a *valid* URI with port 0. The failed `int.TryParse`
  sets `isValid = false`, and a later statement of the same branch sets it back to true.
  For tcp that is the next statement; for udp it is the branch's last statement, after
  `BindIP` and `LocalPort`, so an unparsable `LocalPort` does not make the URI invalid either.
- An unknown scheme, or a wrong field count for `serial` or `sdp`, does not make the URI
  invalid. `IsValid` keeps whatever value an earlier assignment left.
- The `ConnUri` overload of `CreateCommunicator` never reads `IsValid`.
- Queued ("thread pool") delivery of `FrameAvailableEvent` never happens. The constructor
  creates the queue and its task, but it never stores its flag, so `FireEvent` always calls
  the handlers inline.

The public getters of `ConnUri` (`UriPath`, `IsValid`, `IP`, `Port`, `BindIP`, `LocalPort`,
`SerialPort`, `SerialBPS` and `Path`) each read the class field of the same name, and `UriType`
is that field itself; `ConnUri.Fields()` gathers them into one `UriFields` value.

## Model

| member | source | states |
|---|---|---|
| Uris.AssignTcp | Base/ConnUri.cs:70-84 | the tcp case makes the URI valid exactly when there are two fields, and writes no field but IP, Port, IsValid, Path and UriType |
| Uris.AssignUdp | Base/ConnUri.cs:85-108 | the udp case makes the URI valid exactly when there are two or more fields, and never writes UriPath, SerialPort or SerialBPS |
| Uris.AssignSerial | Base/ConnUri.cs:109-120 | the serial case with two fields makes the URI valid writing only SerialPort, SerialBPS, IsValid and UriType; any other count changes nothing |
| Uris.AssignSdp | Base/ConnUri.cs:121-134 | the sdp case with four fields makes the URI valid writing only Path, IP, Port, IsValid, BindIP and UriType; any other count changes nothing |
| Uris.Dispatch | Base/ConnUri.cs:68-138 | the switch never writes the stored UriPath, only tcp, udp, serial or sdp can turn an invalid URI valid, and any other scheme leaves the type UNKNOWN |
| Uris.AssignUriPath | Base/ConnUri.cs:51-142 | the stored UriPath always becomes the assigned value; the only exception is ArgumentOutOfRange, and when it is raised nothing but UriPath has changed |
| Uris.ConnUri.SetUriPath | Base/ConnUri.cs:51-142 | on any object, the setter, statement by statement, leaves exactly the fields and raises exactly the exception `AssignUriPath` gives for the old fields; on an object whose TCP/UDP Path is canonical it keeps it canonical |
| Uris.ConnUri.SetTcp | Base/ConnUri.cs:70-84 | the tcp branch's assignments, including isValid set false and then true, produce `AssignTcp` of the old fields |
| Uris.ConnUri.SetUdp | Base/ConnUri.cs:85-108 | the udp branch's assignments, with optional BindIP and LocalPort, produce `AssignUdp` of the old fields |
| Uris.ConnUri.SetSerial | Base/ConnUri.cs:109-120 | the serial branch produces `AssignSerial` of the old fields, and changes nothing unless there are two fields |
| Uris.ConnUri.SetSdp | Base/ConnUri.cs:121-134 | the sdp branch produces `AssignSdp` of the old fields, and changes nothing unless there are four fields |
| Uris.ConnUri.Blank | Base/ConnUri.cs:145-187 | a new object's fields hold C#'s defaults: null strings, zero numbers, UNKNOWN, not valid |
| Uris.ConnUri.Create | Base/ConnUri.cs:193-196 | `new ConnUri(s)` throws exactly when assigning s to a new object's UriPath throws; otherwise it returns a fresh object holding that assignment's fields |
| Uris.AssignPreservesCanonical | Base/ConnUri.cs:70-108 | from any state where a valid TCP/UDP URI has a ':'-free IP (for UDP also '@'-trimmed) and Path "scheme://IP:Port", every assignment leads to such a state again |
| UriProperties.NullOrEmptyIsInvalid | Base/ConnUri.cs:53-57 | a null or empty string clears IsValid and changes nothing but the stored string |
| UriProperties.FewerThanTwoSlashesChangeNothing | Base/ConnUri.cs:60-141 | a string without two '/' characters changes only the stored UriPath |
| UriProperties.FewerThanTwoSlashesFromNew | Base/ConnUri.cs:193-196 | so a new object built from such a string stays invalid and UNKNOWN |
| UriProperties.RaisesIffLeadingSlash | Base/ConnUri.cs:60-65 | the setter throws if and only if the string starts with '/' and has another '/' after it |
| UriProperties.SchemeDispatch | Base/ConnUri.cs:62-69 | for "scheme" + one character + "/" + one character + data, the switch sees that scheme and the ':'-separated pieces of data |
| UriProperties.SlashPositions | Base/ConnUri.cs:60-67 | in "scheme" + one character + "/" + one character + data, with a '/'-free scheme and a second '/', the first '/' is right after the scheme's next character, another '/' follows it, and the scheme and data are the slices the setter takes |
| UriProperties.TcpCases | Base/ConnUri.cs:70-84 | tcp with two fields is valid TCP with IP = field 0, Port = field 1 parsed (0 if it does not parse) and Path "tcp://IP:Port"; any other count only clears IsValid |
| UriProperties.UdpCases | Base/ConnUri.cs:85-108 | udp with two or more fields is valid UDP, with IP = field 0 trimmed of '@', BindIP = field 2 and LocalPort = field 3 parsed when present, and Path "udp://IP:Port"; one field only clears IsValid |
| UriProperties.SerialCases | Base/ConnUri.cs:109-120 | serial with two fields is valid SERIAL with SerialPort and SerialBPS; any other count changes no field but the stored UriPath |
| UriProperties.SdpCases | Base/ConnUri.cs:121-134 | sdp with four fields is valid SDP with Path, IP, Port and BindIP from the fields; any other count changes no field but the stored UriPath |
| UriProperties.UnknownScheme | Base/ConnUri.cs:135-137 | any other scheme sets UNKNOWN and leaves IsValid and every other field as they were |
| UriProperties.TcpTwoFields | Base/ConnUri.cs:67-84 | assigning "tcp://" + ip + ":" + num, with neither containing ':', writes exactly IP, Port, IsValid, Path and UriType |
| UriProperties.UdpTwoFields | Base/ConnUri.cs:67-108 | assigning "udp://" + ip + ":" + num, with neither containing ':', writes IP trimmed of '@', Port, IsValid, Path and UriType, and leaves BindIP and LocalPort alone |
| UriProperties.PairPath | Base/ConnUri.cs:60-69 | "scheme://ip:num" with ':'-free ip and num raises nothing and reaches the switch with that scheme and exactly the two fields ip and num |
| UriProperties.UdpPairPath | Base/ConnUri.cs:60-108 | "udp://ip:num" with ':'-free ip and num raises nothing and reaches the udp case with exactly the two fields ip and num |
| UriProperties.UdpOfPair | Base/ConnUri.cs:85-108 | the udp case with exactly two fields sets the '@'-trimmed IP, the parsed Port, the canonical Path and a valid UDP type, and leaves BindIP and LocalPort alone |
| UriProperties.ReparseTcpPath | Base/ConnUri.cs:79 | assigning the Path of a valid TCP URI to any object rewrites exactly IP, Port, Path, IsValid and UriType to the original's values |
| UriProperties.ReparseUdpText | Base/ConnUri.cs:85-104 | assigning "udp://IP:Port" for a ':'-free, '@'-trimmed IP sets exactly that IP and Port, a valid UDP type and the same Path |
| UriProperties.ReparseUdpPath | Base/ConnUri.cs:85-104 | assigning the Path of a valid UDP URI to any object rewrites exactly IP, Port, Path, IsValid and UriType to the original's values |
| UriProperties.ReparseCanonicalPath | Base/ConnUri.cs:70-104 | round trip: the Path of a valid TCP or UDP URI parses back to a valid URI of the same type with the same IP, Port and Path |
| UriProperties.BecomingTcpKeepsOtherFields | Base/ConnUri.cs:70-84 | an assignment that turns a non-TCP URI into TCP leaves BindIP, SerialPort, SerialBPS and LocalPort as they were |
| UriProperties.OnlyTcpCaseMakesTcp | Base/ConnUri.cs:68-138 | the switch turns another type into TCP only through the tcp case with two fields |
| UriProperties.FreshRoundTrip | Base/ConnUri.cs:193-196 | `new ConnUri(u.Path)` for a new valid TCP/UDP `u` has the same type, IP, Port and Path; for TCP it differs from `u` only in the stored string |
| Text.IndexOf | Base/ConnUri.cs:62 | the index of the first occurrence of the character, or -1 when there is none |
| Text.LastIndexOf | Base/ConnUri.cs:62 | the index of the last occurrence of the character, or -1 when there is none |
| Text.Split | Base/ConnUri.cs:67 | one piece more than there are separators, no piece contains the separator, and joining the pieces gives the string back |
| Text.SplitJoin | Base/ConnUri.cs:67 | splitting the join of separator-free pieces gives those pieces back |
| Text.Trim | Base/ConnUri.cs:88 | the result neither starts nor ends with a trimmed character |
| Text.TrimSlice | Base/ConnUri.cs:88 | the trimmed string is one contiguous run of the original, and every character around it is a trimmed one |
| Text.TrimKeepsAbsent | Base/ConnUri.cs:88 | trimming introduces no character |
| Text.TrimIdempotent | Base/ConnUri.cs:88 | trimming twice is trimming once |
| Text.TrimAround | Base/ConnUri.cs:88 | a run that neither starts nor ends with a trimmed character, between runs made only of trimmed characters, is exactly what trimming keeps |
| Numbers.ReadDigitsAccepts | Base/ConnUri.cs:74 | the digit reader accepts exactly the strings made only of decimal digits |
| Numbers.NatToDigits | Base/ConnUri.cs:79 | the decimal digits of a natural number, with no leading zero except for 0 itself, which read back as that number |
| Numbers.ToDecimalString | Base/ConnUri.cs:79 | `Int32.ToString()`: non-empty, ends in a digit, starts with '-' exactly for negatives, the rest is the decimal digits of the magnitude with no leading zero (except for 0 itself), and never contains ':' |
| Numbers.ParseInteger | Base/ConnUri.cs:74 | a parsed value lies in the target range; failure is Format or Overflow; the accepted texts and their values are stated by the next two lemmas |
| Numbers.ParseIntegerReads | Base/ConnUri.cs:74 | white space, an optional '+' or '-', one or more digits and white space read as the signed value of the digits when it is in range, and as Overflow when it is not |
| Numbers.ParseIntegerFormat | Base/ConnUri.cs:74 | the parse fails with Format exactly for the texts that are not white space, an optional sign, one or more digits and white space |
| Numbers.TryParseInt32 | Base/ConnUri.cs:74 | `int.TryParse` succeeds exactly when the text parses into the Int32 range, yields the parsed value then, and 0 when it fails |
| Numbers.ParseUInt16 | CommunicatorBase.cs:117 | `ushort.Parse` succeeds exactly when the text parses into 0..65535, with the parsed value, and otherwise throws that parse's FormatException or OverflowException |
| Numbers.ParseFormatted | Base/ConnUri.cs:74-79 | the decimal text of any in-range integer parses back to that integer |
| Numbers.TryParseFormatted | Base/ConnUri.cs:74-79 | `int.TryParse` reads back what `Int32.ToString` wrote |
| Communicators.CommunicatorFor | CommunicatorBase.cs:24-32 | the switch both overloads share: a TCP communicator exactly for TCP, a UDP one exactly for UDP, and null for every other type |
| Communicators.CreateCommunicator | CommunicatorBase.cs:21-35 | a TCP communicator exactly for TCP, a UDP one exactly for UDP, null for every other type whatever IsValid says, and NullReferenceException for a null uri |
| Communicators.CreateCommunicatorFromString | CommunicatorBase.cs:45-64 | propagates the ConnUri constructor's exception, returns null for an invalid URI, TCP exactly for valid TCP, UDP exactly for valid UDP, and null for every other valid type |
| Communicators.StringOverloadAgrees | CommunicatorBase.cs:21-64 | on a string that gives a valid URI, the string overload returns what the ConnUri overload returns for the parsed object |
| Communicators.TcpStringCreatesTcp | CommunicatorBase.cs:45-64 | "tcp://ip:port" with no further ':' always yields a TCP communicator, even when the port is not a number |
| Communicators.SerialOrSdpCreatesNothing | CommunicatorBase.cs:53-63 | a SERIAL or SDP URI yields null |
| Communicators.FirstUnparsable | CommunicatorBase.cs:116-117 | the index of the first piece `ushort.Parse` rejects: every earlier piece parses, and the piece there does not |
| Communicators.WriteChunks | CommunicatorBase.cs:116-117 | the loop stores each piece up to the first unparsable one, leaves every other index alone, and raises that piece's exception if there is one |
| Communicators.SetIPChunksEffect | CommunicatorBase.cs:112-118 | a null ip throws NullReferenceException; four pieces that all parse fill IpChunks; a bad piece throws with only the earlier indices overwritten; any other piece count leaves IpChunks unchanged |
| Communicators.CommunicatorBase.constructor | CommunicatorBase.cs:73-85 | a new communicator has no subscribers, four zero IpChunks and is not disposed |
| Communicators.CommunicatorBase.SubscribeDataReady | CommunicatorBase.cs:73 | `DataReadyEvent += h` appends one subscription |
| Communicators.CommunicatorBase.SubscribeConnectionState | CommunicatorBase.cs:74 | `ConnectionStateEvent += h` appends one subscription |
| Communicators.CommunicatorBase.SubscribeDataRate | CommunicatorBase.cs:75 | `DataRateEvent += h` appends one subscription |
| Communicators.CommunicatorBase.FireDataEvent | CommunicatorBase.cs:97-100 | every DataReadyEvent subscriber is called once, in order, with the arguments unchanged; no subscriber means no call |
| Communicators.CommunicatorBase.FireConnectionEvent | CommunicatorBase.cs:102-105 | every ConnectionStateEvent subscriber is called once, in order, with (ID, uri, connected) |
| Communicators.CommunicatorBase.FireDataRateEvent | CommunicatorBase.cs:107-110 | every DataRateEvent subscriber is called once, in order, with (ID, rx, tx) |
| Communicators.CommunicatorBase.SetIPChunks | CommunicatorBase.cs:112-118 | the in-place loop leaves IpChunks and raises the exception `SetIPChunksEffect` gives; a null ip throws NullReferenceException |
| Communicators.CommunicatorBase.UnsubscribeEventHandlers | CommunicatorBase.cs:120-129 | DataReadyEvent and ConnectionStateEvent end with no subscriber; DataRateEvent is untouched |
| Communicators.CommunicatorBase.DisposeCore | CommunicatorBase.cs:134-145 | the first call with disposing unsubscribes; every call marks the object disposed; once disposed, nothing changes |
| Communicators.CommunicatorBase.Dispose | CommunicatorBase.cs:147-150 | the first Dispose unsubscribes and marks the object disposed; later calls leave the registries as they are |
| Events.Notify | CommunicatorBase.cs:97-110 | raising an event makes one call per subscription, in subscription order, each with the same arguments |
| Events.Remove | CommunicatorBase.cs:122-128 | `-=` of a subscribed handler removes exactly one subscription of it; of any other handler, nothing |
| Events.RemoveDropsLast | CommunicatorBase.cs:122-128 | the subscription `-=` removes is the handler's last one, and the other subscriptions keep their order |
| Events.UnsubscribeAll | CommunicatorBase.cs:120-129 | removing each handler of the invocation list, duplicates included, leaves no subscriber |
| FrameWrappers.FrameWrapperBase.constructor | FrameWrappers/FrameWrapperBase.cs:22-41 | with true the queue is created and its task started; in every case the thread-pool flag stays false and ID is null |
| FrameWrappers.FrameWrapperBase.SetID | FrameWrappers/FrameWrapperBase.cs:43-46 | ID reads the value set |
| FrameWrappers.FrameWrapperBase.SubscribeFrameAvailable | FrameWrappers/FrameWrapperBase.cs:20 | `FrameAvailableEvent += h` appends one subscription |
| FrameWrappers.FrameWrapperBase.FireEvent | FrameWrappers/FrameWrapperBase.cs:65-71 | always the inline branch: every subscriber is called with (ID, value), the queue never receives an item, and no subscriber means no call |
| FrameWrappers.FrameWrapperBase.UnsubscribeEventHandlers | FrameWrappers/FrameWrapperBase.cs:83-88 | FrameAvailableEvent ends with no subscriber |
| FrameWrappers.FrameWrapperBase.Data2BytesSync | FrameWrappers/FrameWrapperBase.cs:96-99 | always NotImplementedException: no bytes and no count |

## Left out

- TCPNETCommunicator, UDPNETCommunicator and ICommunicator are not part of this model. Sockets, receive and send loops, timers, send-gap sleeping and the float data-rate arithmetic are I/O, concurrency and floating point. The factory's result is only a tag naming the class it would construct.
- Communicators.CreateCommunicator: the `frameWrapper` argument is not carried in the result tag, because the communicator constructors that store it are not part of this model.
- ICommsQueue and its implementations, CircularByteBuffer4Comms and BlockingByteQueue, are not part of this model. Their code is not available.
- The protobuf and JSON frame wrappers, AsyncFrameWrapper and SyncFrameWrapper are not part of this model. They are thin wrappers over serialisation libraries and thread lifecycle.
- `FireQueuedEventLoop` and `BlockingQueue<T>` are left out as concurrency. With `true` the constructor does start that task, and it blocks forever in `Dequeue`: the queue never receives an item, so the handler call inside the loop is never reached. The model records only that the delivery task was started.
- CommEquipmentObject and TimeTools are left out; they are clock reads.
- CommunicatorBase's abstract `Init`, `Start`, `Stop`, `SendASync`, `SendSync` and `FrameWrapper` have no body in this class and are not modelled. The same goes for FrameWrapperBase's abstract `AddBytes`, `Start` and `Stop`.
- CommunicatorBase's public field `State` and its auto-properties `CommsUri` and `ID` hold values nothing in the modelled code reads, and are left out.
- Event handlers are external code. A raised event is recorded as the list of calls it makes, not run. Every handler is assumed to return normally: in C# a handler that throws stops the remaining handlers and the exception propagates out of `Fire*`, which the model does not capture.
- Subscribe methods model `+=` of one non-null single-cast handler. Adding null, which changes nothing, or a multicast delegate, which appends its whole invocation list, is not modelled. The `byte[]` and `ushort[]` arguments are passed on as references: what a handler does to them is not modelled.
- Numbers.TryParseInt32: .NET's acceptance of trailing '\0' characters is not modelled. The sign characters are those of the invariant culture, '-' and '+'.
- Numbers.ParseUInt16: the same two simplifications as TryParseInt32.
- Numbers.ParseInteger: its own ensures give only the range and the failure kinds; which texts it accepts and the values they read as are stated by ParseIntegerReads and ParseIntegerFormat.
- Numbers.ToDecimalString: `Int32.ToString()` uses the current culture's NegativeSign; the model always writes the invariant culture's '-'. Under a culture with another sign, the Path of a URI with a negative port differs, and so does what parsing it back gives.
- Uris.AssignUriPath: strings are sequences of Unicode scalar values, while C#'s `IndexOf` and `Substring` count UTF-16 code units. A character outside the Basic Multilingual Plane is two units in C# and one character here. For "tcp\U{1D11E}//a:1" C# finds the first '/' at 5, takes the scheme "tcp" followed by the lone high surrogate, and leaves a new object UNKNOWN and invalid (so the string overload of CreateCommunicator returns null); the model reads the scheme "tcp" and a valid TCP URI. A character of that kind right after the first '/' differs in the same way, because C# then skips only one of its two units.
- `ConnUri.UriType` is a public field that callers may assign directly. Such writes are outside the setter and can leave an object whose Path is not canonical for its type. `SetUriPath` still runs on such an object with its full effect; only the canonical-Path invariant is then not promised, and the round-trip lemmas do not apply to it.
