/** The client as the program writes it: a socket and a buffer, updated in place by a loop. */
module ReceiveObject {
  import opened Options
  import opened Frames
  import opened R = Receive

  class WebSocketClient {
    const random: Random
    var connected: bool
    var buffer: Bytes
    var inbox: seq<Arrival>
    var sent: seq<Bytes>

    function State(): Client
      reads this
    {
      Client(connected, buffer, inbox, sent)
    }

    /** A connection just opened. */
    constructor (random: Random, inbox: seq<Arrival>)
      ensures State() == Client(true, [], inbox, []) && this.random == random
    {
      this.random, this.inbox := random, inbox;
      connected, buffer, sent := true, [], [];
    }

    /** Reads the socket once more; says how that fails, if it does. */
    method RecvMore() returns (failed: Option<Outcome>)
      modifies this
      ensures failed == if !old(connected) then Some(Closed)
                        else if old(inbox) == [] || old(inbox)[0].NothingInTime? then Some(TimedOut)
                        else if old(inbox)[0].Lost? || old(inbox)[0].data == [] then Some(Closed)
                        else None
      ensures failed.Some? ==> buffer == old(buffer)
      ensures connected == (old(connected) && failed != Some(Closed)) && sent == old(sent)
      ensures inbox == if old(connected) && old(inbox) != [] then old(inbox)[1..] else old(inbox)
      ensures failed.None? ==> buffer == old(buffer) + old(inbox)[0].data
    {
      if !connected {
        return Some(Closed);
      }
      if inbox == [] {
        return Some(TimedOut);
      }
      var arrival := inbox[0];
      inbox := inbox[1..];
      match arrival
      case NothingInTime =>
        return Some(TimedOut);
      case Lost =>
        connected := false;
        return Some(Closed);
      case Chunk(data) =>
        if data == [] {
          connected := false;
          return Some(Closed);
        }
        buffer := buffer + data;
        return None;
    }

    /** The next message, pings answered on the way. */
    method Receive() returns (outcome: Outcome)
      modifies this
      ensures (State(), outcome) == R.Receive(old(State()), [], random)
    {
      hide DecodeFrame, EncodeFrame;
      var parts: seq<Bytes> := [];
      while true
        invariant R.Receive(State(), parts, random) == R.Receive(old(State()), [], random)
        decreases |inbox|, |buffer|
      {
        var parsed := DecodeFrame(buffer);
        if parsed.None? {
          var failed := RecvMore();
          if failed.Some? {
            return failed.value;
          }
        } else {
          FrameFits(buffer);
          var f := parsed.value;
          buffer := buffer[f.used..];
          if f.opcode == OP_PING {
            if connected {
              sent := sent + [EncodeFrame(OP_PONG, f.payload, random(|sent|))];
            }
          } else if f.opcode == OP_CLOSE {
            connected := false;
            return Closed;
          } else if IsData(f) {
            parts := parts + [f.payload];
            if f.fin {
              return Message(Join(parts));
            }
          }
        }
      }
    }
  }
}
