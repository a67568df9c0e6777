/** The reads of the witness server from a socket, in the loops that do them. */
module FramingInPlace {
  import opened Framing

  class Socket {
    var chunks: seq<Bytes>

    constructor (chunks: seq<Bytes>)
      requires Arriving(chunks)
      ensures this.chunks == chunks
    {
      this.chunks := chunks;
    }

    method Recv(n: nat) returns (data: Bytes)
      requires Arriving(chunks) && n > 0
      modifies this
      ensures Arriving(chunks)
      ensures Got(data, chunks) == Framing.Recv(old(chunks), n)
    {
      if chunks == [] {
        return [];
      }
      if |chunks[0]| <= n {
        data := chunks[0];
        chunks := chunks[1..];
      } else {
        data := chunks[0][..n];
        chunks := [chunks[0][n..]] + chunks[1..];
      }
    }
  }

  /** The loop over recv computes Framing.ReadHead on the chunks the socket had, and leaves in
      it the chunks that function leaves. */
  method ReadHead(sock: Socket, buf: Bytes) returns (r: HeadRead)
    requires Arriving(sock.chunks)
    modifies sock
    ensures Arriving(sock.chunks)
    ensures r == Framing.ReadHead(buf, old(sock.chunks))
    ensures r.Head? ==> sock.chunks == r.chunks
  {
    var all := buf;
    while FindEnd(all).None?
      invariant Arriving(sock.chunks)
      invariant Framing.ReadHead(all, sock.chunks) == Framing.ReadHead(buf, old(sock.chunks))
      decreases |Flat(sock.chunks)|
    {
      if |all| > HEAD_MAX {
        return Bad;
      }
      var data := sock.Recv(HEAD_RECV);
      if data == [] {
        return if all == [] then Closed else Bad;
      }
      all := all + data;
    }
    var i := FindEnd(all).value;
    if i > HEAD_MAX {
      return Bad;
    }
    return Head(all[..i], all[i + 4..], sock.chunks);
  }

  method ReadBody(sock: Socket, buf: Bytes, length: nat) returns (r: BodyRead)
    requires Arriving(sock.chunks)
    modifies sock
    ensures Arriving(sock.chunks)
    ensures r == Framing.ReadBody(buf, length, old(sock.chunks))
    ensures r.Body? ==> sock.chunks == r.chunks
  {
    var all := buf;
    while |all| < length
      invariant Arriving(sock.chunks)
      invariant Framing.ReadBody(all, length, sock.chunks) == Framing.ReadBody(buf, length, old(sock.chunks))
      decreases |Flat(sock.chunks)|
    {
      var data := sock.Recv(Min(BODY_RECV, length - |all|));
      if data == [] {
        return Short;
      }
      all := all + data;
    }
    return Body(all[..length], all[length..], sock.chunks);
  }

  /** One accepted connection, call by call, until it ends. */
  method Connection(app: App, sock: Socket) returns (calls: seq<Taken>, ending: Ending)
    requires Arriving(sock.chunks)
    modifies sock
    ensures var r := Serve(app, [], [], old(sock.chunks)); calls == r.calls && ending == r.ending
  {
    hide Framing.ReadHead, Framing.ReadBody, Frame, Keeps, Flat;
    var buf := [];
    calls := [];
    while true
      invariant Arriving(sock.chunks)
      invariant Serve(app, calls, buf, sock.chunks) == Serve(app, [], [], old(sock.chunks))
      decreases |buf| + |Flat(sock.chunks)|
    {
      HeadSplits(buf, sock.chunks);
      var r := ReadHead(sock, buf);
      if !r.Head? {
        return calls, if r.Closed? then PeerClosed else Broken;
      }
      match Frame(r.head) {
        case TurnedAway(status) => return calls, Refused(status);
        case Dropped => return calls, Broken;
        case Sized(length, call) =>
          if !app.admits(calls, r.head) {
            return calls, NotAdmitted;
          }
          BodySplits(r.rest, length, sock.chunks);
          var b := ReadBody(sock, r.rest, length);
          if b.Short? {
            return calls, Broken;
          }
          var t := Taken(r.head, b.body);
          var keep := Keeps(app, calls, call, t);
          calls := calls + [t];
          buf := b.rest;
          if !keep {
            return calls, LastCall;
          }
      }
    }
  }
}
