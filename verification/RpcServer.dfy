/** The frame reader and the server's message callback, working on a connection's input buffer. */
module RpcServers {
  import opened Bytes
  import opened Buffers
  import opened Protocol
  import opened Framing
  import opened Registry
  import opened ServerStream
  import opened ServerHandlers

  datatype ParseResult = Ok | More | Error

  const NO_HEADER := Header(0, 0, 0, 0, 0, 0, 0, 0)

  class FrameReader {
    var maxFrameSize: Limit

    constructor (size: nat)
      ensures maxFrameSize == if size < HEADER_SIZE then HEADER_SIZE else size
    {
      maxFrameSize := if size < HEADER_SIZE then HEADER_SIZE else size;
    }

    method SetMaxFrameSize(size: nat)
      modifies this
      ensures maxFrameSize == if size < HEADER_SIZE then HEADER_SIZE else size
    {
      maxFrameSize := if size < HEADER_SIZE then HEADER_SIZE else size;
    }

    /** Consumes exactly one frame, or nothing. */
    method Parse(buf: Buffer) returns (result: ParseResult, header: Header, body: bytes)
      requires buf.Valid()
      modifies buf`readIndex, buf`writeIndex
      ensures buf.Valid()
      ensures match ParseFrame(maxFrameSize, old(buf.Contents()))
        case NeedMore => result == More && buf.Contents() == old(buf.Contents())
        case ProtocolError => result == Error && buf.Contents() == old(buf.Contents())
        case Complete(f, rest) => result == Ok && Frame(header, body) == f && buf.Contents() == rest
    {
      header, body := NO_HEADER, [];
      var readable := buf.ReadableBytes();
      if readable < HEADER_SIZE {
        return More, header, body;
      }
      var view := buf.store[buf.readIndex..buf.writeIndex];
      var candidate := DecodeHeader(view);
      if candidate.None? {
        return Error, header, body;
      }
      var maxBody := MaxBody(maxFrameSize);
      if candidate.value.bodyLen > maxBody {
        return Error, header, body;
      }
      var frameSize := HEADER_SIZE + candidate.value.bodyLen;
      if readable < frameSize {
        return More, header, body;
      }
      body := view[HEADER_SIZE..frameSize];
      buf.Retrieve(frameSize);
      return Ok, candidate.value, body;
    }
  }

  /** A connection as the server sees it: sends count only while it is connected. */
  class Transport {
    var connected: bool
    var sent: bytes

    constructor ()
      ensures connected && sent == []
    {
      connected, sent := true, [];
    }

    method Send(message: bytes)
      modifies this
      ensures connected == old(connected)
      ensures sent == old(sent) + if old(connected) then message else []
    {
      if connected {
        sent := sent + message;
      }
    }

    /** shutdown() and forceClose() both leave kConnected. */
    method Close()
      modifies this`connected
      ensures !connected
    {
      connected := false;
    }

    /** The reply `r` has been carried out on a connection that was `was` with `before` sent. */
    ghost predicate Replied(was: bool, before: bytes, r: Reply)
      reads this
    {
      && connected == (was && r.Answer?)
      && sent == before + if was && !r.Drop? then EncodeFrame(r.frame) else []
    }
  }

  class RpcServer {
    const cfg: Config
    const registry: ServiceRegistry
    const reader: FrameReader
    /** The requests whose handlers have run. */
    ghost var handled: seq<Request>

    constructor (registry: ServiceRegistry, reader: FrameReader, inputLimit: nat, serializer: byte)
      requires registry.frozen
      ensures this.registry == registry && this.reader == reader && Valid()
      ensures cfg.inputLimit == inputLimit && cfg.serializer == serializer
    {
      this.registry, this.reader, handled := registry, reader, [];
      this.cfg := Config(reader.maxFrameSize, inputLimit, serializer, Table(registry.methods, registry.services));
    }

    /** Started: the registry is frozen and the configuration describes it. */
    ghost predicate Valid()
      reads this, registry, reader
    {
      registry.frozen && registry.Tables() == cfg.table && reader.maxFrameSize == cfg.limit
    }

    method SendResponse(conn: Transport, requestId: uint32, response: Response)
      modifies conn
      ensures conn.connected == (old(conn.connected) && ResponseFits(response.payload))
      ensures conn.sent == old(conn.sent)
        + if old(conn.connected) && ResponseFits(response.payload)
          then EncodeFrame(ResponseFrame(requestId, response)) else []
    {
      if !ResponseFits(response.payload) {
        conn.Close();
        return;
      }
      var frame := ResponseFrame(requestId, response);
      conn.Send(EncodeHeader(frame.header) + frame.body);
    }

    method RejectAndClose(conn: Transport, requestId: uint32, status: byte)
      modifies conn
      ensures conn.Replied(old(conn.connected), old(conn.sent), Reject(requestId, status))
    {
      SendResponse(conn, requestId, Response(status, [], 0));
      conn.Close();
    }

    method HandleRequest(conn: Transport, header: Header, body: bytes)
      requires Valid()
      modifies conn, `handled
      ensures conn.Replied(old(conn.connected), old(conn.sent), ServerStream.HandleRequest(cfg, Frame(header, body)))
      ensures handled == old(handled) + if DecodeRequest(body).Some? then [DecodeRequest(body).value] else []
    {
      var request := DecodeRequest(body);
      if request.None? {
        RejectAndClose(conn, header.requestId, MALFORMED_BODY);
        return;
      }
      var status, payload := registry.Lookup(request.value);
      handled := handled + [request.value];
      SendResponse(conn, header.requestId, Response(status, payload, header.serializer));
    }

    /** One complete frame of onMessage's loop; `stop` is an early return. */
    method HandleFrame(conn: Transport, header: Header, body: bytes) returns (stop: bool)
      requires Valid()
      modifies conn, `handled
      ensures stop == StopsLoop(Frame(header, body))
      ensures handled == old(handled) + Dispatched(cfg, Frame(header, body))
      ensures conn.Replied(old(conn.connected), old(conn.sent), ReplyTo(cfg, Frame(header, body)))
    {
      if header.version != VERSION {
        RejectAndClose(conn, header.requestId, UNSUPPORTED_VERSION);
        return true;
      }
      if header.kind != REQUEST {
        RejectAndClose(conn, header.requestId, UNSUPPORTED_MSG_TYPE);
        return true;
      }
      if header.flags != 0 {
        RejectAndClose(conn, header.requestId, UNSUPPORTED_FLAG);
        return true;
      }
      if header.serializer != cfg.serializer {
        SendResponse(conn, header.requestId, Response(UNSUPPORTED_SERIALIZER, [], header.serializer));
        return false;
      }
      HandleRequest(conn, header, body);
      return false;
    }

    /** Consumes the buffer frame by frame; what is sent is what the stream function says. */
    method OnMessage(conn: Transport, buf: Buffer)
      requires Valid() && buf.Valid()
      modifies conn, buf`readIndex, buf`writeIndex, `handled
      ensures buf.Valid() && handled == old(handled) + Log(cfg, old(buf.Contents()))
      ensures var c := ServerStream.OnMessage(cfg, Conn(old(conn.connected), old(buf.Contents()), []));
        conn.connected == c.open && buf.Contents() == c.buffered
        && conn.sent == old(conn.sent) + EncodeFrames(c.sent)
    {
      ghost var before, sent: seq<Frame> := conn.sent, [];
      ghost var goal := ServerStream.OnMessage(cfg, Conn(conn.connected, buf.Contents(), []));
      var done := false;
      while !done
        invariant Valid() && buf.Valid()
        invariant handled + (if done then [] else Log(cfg, buf.Contents())) == old(handled) + Log(cfg, old(buf.Contents()))
        invariant conn.sent == before + EncodeFrames(sent)
        invariant var c := Conn(conn.connected, buf.Contents(), sent);
          goal == if done then c else ServerStream.OnMessage(cfg, c)
        decreases !done, |buf.Contents()|
      {
        done, sent := Round(conn, buf, sent, before);
      }
    }

    /** One round of onMessage's loop. */
    method Round(conn: Transport, buf: Buffer, ghost sent: seq<Frame>, ghost before: bytes)
      returns (done: bool, ghost sent': seq<Frame>)
      requires Valid() && buf.Valid() && conn.sent == before + EncodeFrames(sent)
      modifies conn, buf`readIndex, buf`writeIndex, `handled
      ensures buf.Valid() && conn.sent == before + EncodeFrames(sent')
      ensures handled + (if done then [] else Log(cfg, buf.Contents())) == old(handled) + Log(cfg, old(buf.Contents()))
      ensures !done ==> |buf.Contents()| < |old(buf.Contents())|
      ensures var c := Conn(conn.connected, buf.Contents(), sent');
        ServerStream.OnMessage(cfg, Conn(old(conn.connected), old(buf.Contents()), sent))
        == if done then c else ServerStream.OnMessage(cfg, c)
    {
      ghost var c := Conn(conn.connected, buf.Contents(), sent);
      var result, header, body := reader.Parse(buf);
      sent' := sent;
      if result == More {
        var limit := InputLimit(cfg);
        if buf.ReadableBytes() > limit {
          conn.Close();
        }
        return true, sent;
      }
      if result == Error {
        sent' := ReplyBad(conn, buf, sent, before);
        return true, sent';
      }
      LogFirst(cfg, c.buffered, Frame(header, body), buf.Contents(), handled);
      done, sent' := OneFrame(conn, header, body, sent, before);
      assert Conn(conn.connected, buf.Contents(), sent')
          == Emit(c, ReplyTo(cfg, Frame(header, body))).(buffered := buf.Contents());
    }

    static lemma LogFirst(cfg: Config, s: bytes, f: Frame, rest: bytes, before: seq<Request>)
      requires ParseFrame(cfg.limit, s) == Complete(f, rest)
      ensures before + Log(cfg, s) == before + Dispatched(cfg, f) + if StopsLoop(f) then [] else Log(cfg, rest)
    {
      Associate(before, Dispatched(cfg, f), if StopsLoop(f) then [] else Log(cfg, rest));
    }

    /** The complete-frame branch of onMessage. */
    method OneFrame(conn: Transport, header: Header, body: bytes, ghost sent: seq<Frame>, ghost before: bytes)
      returns (stop: bool, ghost sent': seq<Frame>)
      requires Valid() && conn.sent == before + EncodeFrames(sent)
      modifies conn, `handled
      ensures stop == StopsLoop(Frame(header, body)) && conn.sent == before + EncodeFrames(sent')
      ensures handled == old(handled) + Dispatched(cfg, Frame(header, body))
      ensures var c := Emit(Conn(old(conn.connected), [], sent), ReplyTo(cfg, Frame(header, body)));
        conn.connected == c.open && sent' == c.sent
    {
      ghost var was, sofar := conn.connected, conn.sent;
      stop := HandleFrame(conn, header, body);
      sent' := Recorded(before, sent, was, sofar, conn.sent, ReplyTo(cfg, Frame(header, body)));
    }

    /** The protocol-error branch of onMessage. */
    method ReplyBad(conn: Transport, buf: Buffer, ghost sent: seq<Frame>, ghost before: bytes)
      returns (ghost sent': seq<Frame>)
      requires buf.Valid() && buf.ReadableBytes() >= HEADER_SIZE && conn.sent == before + EncodeFrames(sent)
      modifies conn
      ensures conn.sent == before + EncodeFrames(sent')
      ensures var c := Emit(Conn(old(conn.connected), buf.Contents(), sent), ReplyToBad(buf.Contents()));
        conn.connected == c.open && sent' == c.sent
    {
      ghost var was, sofar := conn.connected, conn.sent;
      var decoded := DecodeHeader(buf.store[buf.readIndex..buf.writeIndex]);
      if decoded.Some? {
        RejectAndClose(conn, decoded.value.requestId, BODY_TOO_LARGE);
      } else {
        conn.Close();
      }
      sent' := Recorded(before, sent, was, sofar, conn.sent, ReplyToBad(buf.Contents()));
    }

    /** Bookkeeping: the frames sent after a reply, given the bytes sent. */
    static lemma Recorded(before: bytes, sent: seq<Frame>, was: bool, sofar: bytes, now: bytes, r: Reply)
      returns (sent': seq<Frame>)
      requires sofar == before + EncodeFrames(sent)
      requires now == sofar + if was && !r.Drop? then EncodeFrame(r.frame) else []
      ensures sent' == if was && !r.Drop? then sent + [r.frame] else sent
      ensures now == before + EncodeFrames(sent')
    {
      if was && !r.Drop? {
        sent' := sent + [r.frame];
        EncodeFramesSnoc(sent, r.frame);
        Associate(before, EncodeFrames(sent), EncodeFrame(r.frame));
      } else {
        sent' := sent;
      }
    }
  }
}
