/**
The parser of one connection as the object it is: fields that every event updates in place. Its
methods are proved against the functions of Http1Parser, about which the results on pairing, on
bodies and on whole conversations are stated.
*/
module Http1Connection {
  import opened Bytes
  import opened Http1Walk
  import opened Wrappers
  import P = Http1Parser

  const KERNEL_BODY_CAPTURE_MAX: nat := 4096

  method TrimLeadingCrlf(b: bytes) returns (r: bytes)
    ensures r == P.TrimLeadingCrlf(b)
    ensures !(CRLF <= r)
  {
    r := b;
    while |r| >= 2 && r[0] == CR && r[1] == LF
      invariant P.TrimLeadingCrlf(r) == P.TrimLeadingCrlf(b)
      decreases |r|
    {
      assert r[..2] == CRLF;
      r := r[2..];
    }
    assert |r| >= 2 ==> r[..2] == [r[0], r[1]];
  }

  class Parser {
    const opts: P.Options
    var clientBuf: bytes
    var clientBufStart: nat
    var serverBuf: bytes
    var pending: Option<P.Pending>
    var response: Option<P.Exchange>

    function View(): P.State
      reads this
    {
      P.State(clientBuf, clientBufStart, serverBuf, pending, response)
    }

    constructor (enabled: bool, maxBytes: int, wait: int, headersOf: bytes -> P.Headers, keep: (bytes, bytes, bytes) -> bool)
      ensures View() == P.EMPTY
      ensures opts.enabled == enabled && opts.wait == wait && opts.headersOf == headersOf && opts.keep == keep
      ensures 0 < opts.maxBytes <= KERNEL_BODY_CAPTURE_MAX
      ensures 0 < maxBytes <= KERNEL_BODY_CAPTURE_MAX ==> opts.maxBytes == maxBytes
    {
      var max := maxBytes;
      if max <= 0 || max > KERNEL_BODY_CAPTURE_MAX {
        max := KERNEL_BODY_CAPTURE_MAX;
      }
      opts := P.Options(enabled, max, wait, headersOf, keep);
      clientBuf, clientBufStart, serverBuf, pending, response := [], 0, [], None, None;
    }

    method Held() returns (n: nat)
      ensures n == |P.HeldCore(View())|
    {
      n := if response.Some? && !response.value.released then 1 else 0;
    }

    method FinishHeld() returns (r: P.Request)
      requires response.Some?
      modifies this`response
      ensures (View(), [r]) == P.FinishHeld(opts, old(View()))
      ensures !P.IsHeld(View())
    {
      hide P.FinishBody;
      var ex := response.value;
      var reqSize, respSize := ex.req.hdr.contentLength, ex.hdr.contentLength;
      if ex.hdr.chunked {
        respSize := -1;
      }
      if ex.req.hdr.chunked {
        reqSize := -1;
      }
      var reqBody, respBody: bytes := P.FinishBody(opts, ex.req.body, ex.req.hdr), [];
      if !ex.noBody {
        respBody := P.FinishBody(opts, ex.body, ex.hdr);
      }
      r := P.Request(ex.req.verb, ex.req.path, ex.status, ex.duration, reqBody, respBody, reqSize, respSize, ex.at);
      response := Some(ex.(released := true, req := ex.req.(body := P.RELEASED), body := P.RELEASED));
    }

    method ReleaseResponse() returns (out: seq<P.Request>)
      modifies this`response
      ensures (View(), out) == P.ReleaseResponse(opts, old(View()))
      ensures !P.IsHeld(View())
    {
      if response.None? || response.value.released {
        return [];
      }
      var r := FinishHeld();
      out := [r];
    }

    method Flush(now: int) returns (out: seq<P.Request>)
      modifies this`response
      ensures (View(), out) == P.Flush(opts, old(View()), now)
    {
      if response.None? || response.value.released {
        return [];
      }
      if now - response.value.lastEvent >= opts.wait || now - response.value.at >= P.HOLD_MAX {
        var r := FinishHeld();
        return [r];
      }
      out := [];
    }

    method ClientHeaders(payload: bytes, time: nat) returns (out: seq<P.Request>)
      modifies this
      ensures (View(), out) == P.OnClientHeaders(opts, old(View()), payload, time)
    {
      hide P.ParseRequestLine, P.Complete, P.TrimLeadingCrlf;
      var more := payload;
      if clientBuf == [] {
        more := TrimLeadingCrlf(payload);
        if more == [] {
          return [];
        }
        clientBufStart := time;
      }
      clientBuf := clientBuf + more;
      out := [];
      if P.Complete(clientBuf) {
        var line := P.ParseRequestLine(clientBuf);
        if line.Some? {
          var req := P.Pending(line.value.0, line.value.1, clientBufStart, P.Headers(0, false, [], []), P.Collector(0, []));
          if opts.enabled {
            out := ReleaseResponse();
            req := req.(hdr := opts.headersOf(clientBuf), body := P.Collector(opts.maxBytes, []));
          }
          pending := Some(req);
        }
        clientBuf := [];
      }
    }

    method ClientData(payload: bytes)
      modifies this`pending, this`response
      ensures View() == P.OnClientData(opts, old(View()), payload)
    {
      hide P.Add;
      if opts.enabled {
        if pending.Some? {
          pending := Some(pending.value.(body := P.Add(pending.value.body, payload)));
        } else if response.Some? {
          var ex := response.value;
          response := Some(ex.(req := ex.req.(body := P.Add(ex.req.body, payload))));
        }
      }
    }

    method ServerHeaders(payload: bytes, time: nat, now: int) returns (out: seq<P.Request>)
      modifies this
      ensures (View(), out) == P.OnServerHeaders(opts, old(View()), payload, time, now)
    {
      hide P.ParseStatusLine, P.Complete, P.TrimLeadingCrlf, P.Elapsed, P.NoBody;
      var more := payload;
      if serverBuf == [] {
        more := TrimLeadingCrlf(payload);
        if more == [] {
          return [];
        }
      }
      serverBuf := serverBuf + more;
      if !P.Complete(serverBuf) {
        return [];
      }
      var status, block := P.ParseStatusLine(serverBuf), serverBuf;
      serverBuf := [];
      if !opts.enabled {
        if status.None? || pending.None? {
          return [];
        }
        var req := pending.value;
        pending := None;
        return [P.Request(req.verb, req.path, status.value, P.Elapsed(time, req.time), [], [], 0, 0, 0)];
      }
      out := ReleaseResponse();
      if status.None? || pending.None? {
        return;
      }
      var req := pending.value;
      pending := None;
      var hdr := opts.headersOf(block);
      var ex := P.Exchange(req, status.value, hdr, P.Collector(opts.maxBytes, []), P.Elapsed(time, req.time), now, now,
                           P.NoBody(req.verb, status.value, hdr), false);
      response := Some(ex);
      if ex.noBody {
        var r := FinishHeld();
        out := out + [r];
      }
    }

    method BodyData(payload: bytes, now: int) returns (out: seq<P.Request>)
      modifies this`response
      ensures (View(), out) == P.OnBodyData(opts, old(View()), payload, now)
    {
      hide P.Add;
      if !opts.enabled || response.None? || response.value.released {
        return [];
      }
      var ex := response.value.(body := P.Add(response.value.body, payload), lastEvent := now);
      response := Some(ex);
      if !ex.hdr.chunked && ex.hdr.contentLength > 0 && (|ex.body.buf| >= ex.hdr.contentLength || |ex.body.buf| >= ex.body.max) {
        var r := FinishHeld();
        return [r];
      }
      out := [];
    }

    /** Response data, and the response it may turn out to be. */
    method ServerData(payload: bytes, time: nat, now: int) returns (out: seq<P.Request>)
      modifies this
      ensures (View(), out) == P.OnServerData(opts, old(View()), payload, time, now)
      decreases |payload|
    {
      hide P.OnServerHeaders, P.OnBodyData, P.BlockEnd;
      if pending.Some? && serverBuf == [] && !P.IsHeld(View()) && P.RESPONSE_PREFIX <= payload {
        var end := P.BlockEnd(payload);
        if end == -1 || end == |payload| {
          out := ServerHeaders(payload, time, now);
        } else {
          out := ServerHeaders(payload[..end], time, now);
          var more := ServerData(payload[end..], time, now);
          out := out + more;
        }
      } else {
        out := BodyData(payload, now);
      }
    }

    method ParseAt(e: Event, time: nat, now: int) returns (out: seq<P.Request>)
      modifies this
      ensures (View(), out) == P.ParseAt(opts, old(View()), e, time, now)
    {
      hide P.OnClientHeaders, P.OnClientData, P.OnServerHeaders, P.OnServerData;
      match e.kind
      case ClientHeaders => out := ClientHeaders(e.payload, time);
      case ClientData =>
        ClientData(e.payload);
        out := [];
      case ServerHeaders => out := ServerHeaders(e.payload, time, now);
      case ServerData => out := ServerData(e.payload, time, now);
    }
  }
}
