/**
 A stream socket, and functions/sendAll.c. The peer's bytes are fixed; how many of them one `recv`
 or `send` moves is an arbitrary sequence of cuts.
 */
module Wire {
  /** What the peer sends until it closes the connection, or until the connection breaks. */
  datatype Incoming = Incoming(data: string, cuts: seq<nat>, breaks: bool)

  datatype Chunk = Data(bytes: string) | Closed | Error

  /** How many bytes one call moves: anything from 1 up to `limit`. */
  function Cut(cuts: seq<nat>, limit: nat): (n: nat)
    requires limit > 0
    ensures 1 <= n <= limit
  {
    if cuts == [] || cuts[0] > limit then limit else if cuts[0] == 0 then 1 else cuts[0]
  }

  /** One call can move any number of bytes that it may move. */
  lemma AnyCut(n: nat, limit: nat)
    requires 1 <= n <= limit
    ensures exists cuts :: Cut(cuts, limit) == n && Rest(cuts) == []
  {
    assert Cut([n], limit) == n && Rest([n]) == [];
  }

  function Rest(cuts: seq<nat>): seq<nat> {
    if cuts == [] then [] else cuts[1..]
  }

  /** One `recv` for at most `max` bytes. */
  function Recv(p: Incoming, max: nat): (r: (Chunk, Incoming))
    requires max > 0
    ensures r.0.Data? ==> 0 < |r.0.bytes| <= max && r.0.bytes + r.1.data == p.data && r.1.breaks == p.breaks
    ensures r.0.Data? <==> p.data != ""
    ensures !r.0.Data? ==> r.1 == p && r.0 == if p.breaks then Error else Closed
  {
    if p.data == "" then (if p.breaks then Error else Closed, p)
    else
      var n := Cut(p.cuts, if max < |p.data| then max else |p.data|);
      (Data(p.data[..n]), Incoming(p.data[n..], Rest(p.cuts), p.breaks))
  }

  /** How many more bytes the connection takes before it breaks. */
  datatype Room = Unlimited | Only(n: nat)

  predicate Fits(room: Room, n: nat) {
    room.Unlimited? || n <= room.n
  }

  /** The part of a text that a connection takes before it breaks. */
  function Taken(room: Room, text: string): (t: string)
    ensures t <= text
  {
    if Fits(room, |text|) then text else text[..room.n]
  }

  function RoomAfter(room: Room, n: nat): Room {
    match room
    case Unlimited => Unlimited
    case Only(k) => Only(if n <= k then k - n else 0)
  }

  class Socket {
    var incoming: Incoming
    var sent: string
    var cuts: seq<nat>
    var room: Room

    constructor (incoming: Incoming, cuts: seq<nat>, room: Room)
      ensures this.incoming == incoming && this.cuts == cuts && this.room == room && sent == ""
    {
      this.incoming, this.cuts, this.room, sent := incoming, cuts, room, "";
    }

    method Receive(max: nat) returns (r: Chunk)
      requires max > 0
      modifies this`incoming
      ensures (r, incoming) == Recv(old(incoming), max)
    {
      var (chunk, rest) := Recv(incoming, max);
      r, incoming := chunk, rest;
    }

    /** One `send`: the number of bytes taken, or -1. */
    method Send(buf: string) returns (n: int)
      requires buf != ""
      modifies this`sent, this`cuts, this`room
      ensures n == -1 <==> old(room) == Only(0)
      ensures n == -1 ==> sent == old(sent) && room == old(room)
      ensures n != -1 ==> 0 < n <= |buf| && sent == old(sent) + buf[..n] && Fits(old(room), n)
      ensures n != -1 ==> room == match old(room) case Unlimited => Unlimited case Only(k) => Only(k - n)
    {
      if room == Only(0) {
        return -1;
      }
      var limit := if room.Only? && room.n < |buf| then room.n else |buf|;
      n := Cut(cuts, limit);
      sent, cuts := sent + buf[..n], Rest(cuts);
      if room.Only? {
        room := Only(room.n - n);
      }
    }
  }

  const INT_LIMIT := 0x8000_0000

  lemma SentSoFar(buf: string, total: nat, i: nat)
    requires total + i <= |buf|
    ensures buf[..total] + buf[total..][..i] == buf[..total + i]
  {
  }

  /**
   `sendAll`: on success the buffer has been written once and in order, on failure the part of it
   that the connection took. The length is kept in an int, which the caller must respect.
   */
  method SendAll(s: Socket, buf: string) returns (r: int, len: nat)
    requires |buf| < INT_LIMIT
    modifies s`sent, s`cuts, s`room
    ensures r == if Fits(old(s.room), |buf|) then 0 else -1
    ensures s.sent == old(s.sent) + Taken(old(s.room), buf) && s.room == RoomAfter(old(s.room), |buf|)
    ensures r == 0 ==> len == |buf|
  {
    var total, bytesleft := 0, |buf|;
    while total < |buf|
      invariant 0 <= total <= |buf| && bytesleft == |buf| - total
      invariant s.sent == old(s.sent) + buf[..total]
      invariant Fits(old(s.room), total) && s.room == RoomAfter(old(s.room), total)
    {
      var i := s.Send(buf[total..]);
      if i < 0 {
        return i, |buf|;
      }
      SentSoFar(buf, total, i);
      total := total + i;
      bytesleft := bytesleft - i;
    }
    assert buf[..total] == buf;
    return 0, total;
  }
}
