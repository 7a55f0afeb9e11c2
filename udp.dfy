/** Device discovery of src/udp.rs: the reply-buffer trimming `trimmer`, the
    lookup of the responder's address in the decoded reply, and the chain of
    fallible steps of `init` with its error mapping. Sockets, the JSON decoder
    and the IPv4 parser are outside the model: their outcomes are parameters. */
module Udp {
  import opened Prims

  /** Size of the zero-initialised buffer `init` receives the reply into. */
  const ReplyBufferSize: nat := 256

  function Zeros(k: nat): (z: seq<u8>)
    ensures |z| == k && forall i :: 0 <= i < k ==> z[i] == 0
  {
    seq(k, _ => 0)
  }

  /** The bytes `trimmer` keeps: everything up to and including the last
      non-zero byte. */
  function TrimZeros(s: seq<u8>): (r: seq<u8>)
    ensures |r| <= |s| && r == s[..|r|]
    ensures r != [] ==> r[|r| - 1] != 0
    ensures forall j :: |r| <= j < |s| ==> s[j] == 0
    decreases |s|
  {
    if s == [] then []
    else if s[|s| - 1] == 0 then TrimZeros(s[..|s| - 1])
    else s
  }

  /** A prefix that ends in a non-zero byte and is followed only by zeros is
      exactly what is kept. */
  lemma TrimCharacterised(s: seq<u8>, r: seq<u8>)
    requires r != [] && |r| <= |s| && r == s[..|r|] && r[|r| - 1] != 0
    requires forall j :: |r| <= j < |s| ==> s[j] == 0
    ensures TrimZeros(s) == r
  {
  }

  /** Nothing is kept exactly when the buffer holds only zero bytes. */
  lemma TrimEmptyIffAllZero(s: seq<u8>)
    ensures TrimZeros(s) == [] <==> forall i :: 0 <= i < |s| ==> s[i] == 0
  {
  }

  /** Round trip of zero padding: a payload that ends in a non-zero byte comes
      back unchanged however many zero bytes follow it. */
  lemma PaddingRemoved(p: seq<u8>, k: nat)
    requires p != [] && p[|p| - 1] != 0
    ensures TrimZeros(p + Zeros(k)) == p
  {
    var s := p + Zeros(k);
    assert s[..|p|] == p;
    TrimCharacterised(s, p);
  }

  /** Trimming twice keeps what trimming once keeps. */
  lemma TrimIdempotent(s: seq<u8>)
    ensures TrimZeros(TrimZeros(s)) == TrimZeros(s)
  {
  }

  /** A buffer whose last byte is non-zero is kept whole. */
  lemma LastNonZeroKeepsAll(s: seq<u8>)
    requires s != [] && s[|s| - 1] != 0
    ensures TrimZeros(s) == s
  {
  }

  /** `trimmer` without its JSON decode: walk back from the last byte over
      zero bytes, then copy the prefix that ends at the last non-zero byte.
      The walk underflows on an empty or all-zero buffer, which callers must
      therefore not pass. */
  method Trimmer(buf: array<u8>) returns (trim: seq<u8>)
    requires buf.Length > 0
    requires exists i :: 0 <= i < buf.Length && buf[i] != 0
    ensures trim == TrimZeros(buf[..])
    ensures trim != [] && trim[|trim| - 1] != 0
  {
    var end := buf.Length - 1;
    var trav := buf[end];
    while trav == 0
      invariant 0 <= end < buf.Length && trav == buf[end]
      invariant forall j :: end < j < buf.Length ==> buf[j] == 0
      invariant exists i :: 0 <= i <= end && buf[i] != 0
      decreases end
    {
      end := end - 1;
      trav := buf[end];
    }

    var length := end + 1;
    trim := [];
    for i := 0 to length
      invariant trim == buf[..i]
    {
      trim := trim + [buf[i]];
    }
    TrimCharacterised(buf[..], trim);
  }

  /** The slice of `serde_json::Value` the discovery reply is read through. */
  datatype Json =
    | Null
    | Bool(b: bool)
    | Number(n: real)
    | Str(s: string)
    | Array(items: seq<Json>)
    | Object(fields: map<string, Json>)

  /** `value[key]`: the member of an object, and `Null` for a missing key or
      for a value that is not an object. */
  function Index(v: Json, key: string): Json {
    if v.Object? && key in v.fields then v.fields[key] else Null
  }

  /** `value.as_str()` */
  function AsStr(v: Json): Option<string> {
    if v.Str? then Some(v.s) else None
  }

  /** `json["msg"]["data"]["ip"].as_str()`: it succeeds exactly on a reply
      that nests objects down to a string at `msg.data.ip`, and yields that
      string. */
  function IpField(reply: Json): (ip: Option<string>)
    ensures ip.Some? <==>
      reply.Object? && "msg" in reply.fields &&
      reply.fields["msg"].Object? && "data" in reply.fields["msg"].fields &&
      reply.fields["msg"].fields["data"].Object? &&
      "ip" in reply.fields["msg"].fields["data"].fields &&
      reply.fields["msg"].fields["data"].fields["ip"].Str?
    ensures ip.Some? ==> ip.value == reply.fields["msg"].fields["data"].fields["ip"].s
  {
    AsStr(Index(Index(Index(reply, "msg"), "data"), "ip"))
  }

  /** The documented discovery reply yields its address string. */
  lemma DiscoveryReplyIp(ip: string)
    ensures IpField(Object(map["msg" := Object(map["data" := Object(map["ip" := Str(ip)])])])) == Some(ip)
  {
  }

  datatype Ipv4Addr = Ipv4Addr(a: u8, b: u8, c: u8, d: u8)
  datatype SocketAddrV4 = SocketAddrV4(ip: Ipv4Addr, port: u16)

  const MulticastGroup := SocketAddrV4(Ipv4Addr(239, 255, 255, 250), 4001)
  const ControlPort: u16 := 4003
  const ScanRequest: string :=
    "{\"msg\": {\"cmd\" : \"scan\", \"data\" : {\"account_topic\" : \"reserve\"}}}"

  datatype Datagram = Datagram(to: SocketAddrV4, payload: string)

  /** The errors `init` returns. */
  datatype InitErr = AddrParseErr | MiscInitErr

  /** Opaque stand-ins for the library error types converted by `?`. */
  datatype AddrParseError = AddrParseError
  datatype IoError = IoError

  /** `impl From<AddrParseError> for InitErr` */
  function FromAddrParseError(e: AddrParseError): InitErr {
    AddrParseErr
  }

  /** `impl From<std::io::Error> for InitErr` */
  function FromIoError(e: IoError): InitErr {
    MiscInitErr
  }

  /** The `?` conversions keep the two failure sources apart: a failed
      address parse and an I/O failure become different `InitErr`s, and only
      the parse failure is reported as `AddrParseErr`. */
  lemma ConversionsDistinguishSources(pe: AddrParseError, ie: IoError)
    ensures FromAddrParseError(pe) != FromIoError(ie)
    ensures FromAddrParseError(pe) == AddrParseErr && FromIoError(ie) == MiscInitErr
  {
  }

  /** Where `init` panics instead of returning: the two `expect`s, the
      underflow of `trimmer` on an all-zero buffer, and the `unwrap` of the
      JSON decode. */
  datatype PanicSite = BindFailed | SendFailed | ReplyAllZero | ReplyNotJson

  datatype InitOutcome =
    | Found(addr: SocketAddrV4)
    | Failed(err: InitErr)
    | Panicked(site: PanicSite)

  /** The receive buffer after `recv_from`: the datagram's first bytes (a
      longer datagram is cut to the buffer), then the initial zeros. */
  function Received(datagram: seq<u8>): (buf: seq<u8>)
    ensures |buf| == ReplyBufferSize
    ensures |datagram| <= ReplyBufferSize ==> buf == datagram + Zeros(ReplyBufferSize - |datagram|)
    ensures |datagram| >= ReplyBufferSize ==> buf == datagram[..ReplyBufferSize]
  {
    seq(ReplyBufferSize, i requires 0 <= i < ReplyBufferSize => if i < |datagram| then datagram[i] else 0)
  }

  /** The bytes handed to the JSON decoder for a received datagram. */
  function Payload(datagram: seq<u8>): seq<u8> {
    TrimZeros(Received(datagram))
  }

  /** A reply that fits the buffer and ends in a non-zero byte reaches the
      decoder byte for byte. */
  lemma PayloadIsReply(datagram: seq<u8>)
    requires 0 < |datagram| <= ReplyBufferSize && datagram[|datagram| - 1] != 0
    ensures Payload(datagram) == datagram
  {
    PaddingRemoved(datagram, ReplyBufferSize - |datagram|);
  }

  /** `init`: bind, set the multicast TTL, send the scan request to the
      multicast group, receive one reply, trim it, decode it, and read the
      responder's address. The socket calls' success, the received datagram
      (`None` for a receive error), the JSON decoder and the IPv4 parser are
      inputs; `sent` is what was handed to the socket. */
  method Init(bindOk: bool, ttlOk: bool, sendOk: bool, reply: Option<seq<u8>>,
              decode: seq<u8> -> Option<Json>, parseIp: string -> Option<Ipv4Addr>)
    returns (r: InitOutcome, sent: seq<Datagram>)
    ensures !bindOk ==> r == Panicked(BindFailed) && sent == []
    ensures bindOk && !ttlOk ==> r == Failed(MiscInitErr) && sent == []
    ensures bindOk && ttlOk ==> sent == [Datagram(MulticastGroup, ScanRequest)]
    ensures bindOk && ttlOk && !sendOk ==> r == Panicked(SendFailed)
    ensures bindOk && ttlOk && sendOk && reply.None? ==> r == Failed(MiscInitErr)
    ensures bindOk && ttlOk && sendOk && reply.Some? ==>
              var bytes := Payload(reply.value);
              if bytes == [] then r == Panicked(ReplyAllZero)
              else if decode(bytes).None? then r == Panicked(ReplyNotJson)
              else if IpField(decode(bytes).value).None? then r == Failed(AddrParseErr)
              else if parseIp(IpField(decode(bytes).value).value).None? then r == Failed(AddrParseErr)
              else r == Found(SocketAddrV4(parseIp(IpField(decode(bytes).value).value).value, ControlPort))
    ensures r.Found? ==> r.addr.port == ControlPort
  {
    sent := [];
    if !bindOk {
      return Panicked(BindFailed), sent;
    }
    if !ttlOk {
      return Failed(FromIoError(IoError)), sent;
    }

    sent := sent + [Datagram(MulticastGroup, ScanRequest)];
    if !sendOk {
      return Panicked(SendFailed), sent;
    }

    if reply.None? {
      return Failed(FromIoError(IoError)), sent;
    }
    var datagram := reply.value;
    var buf := new u8[ReplyBufferSize](i => if 0 <= i < |datagram| then datagram[i] else 0);
    assert buf[..] == Received(datagram);

    if forall i :: 0 <= i < buf.Length ==> buf[i] == 0 {
      TrimEmptyIffAllZero(buf[..]);
      return Panicked(ReplyAllZero), sent;
    }
    var bytes := Trimmer(buf);

    var json := decode(bytes);
    if json.None? {
      return Panicked(ReplyNotJson), sent;
    }

    var ip := IpField(json.value);
    if ip.None? {
      return Failed(AddrParseErr), sent;
    }
    var addr := parseIp(ip.value);
    if addr.None? {
      return Failed(FromAddrParseError(AddrParseError)), sent;
    }
    r := Found(SocketAddrV4(addr.value, ControlPort));
  }
}
