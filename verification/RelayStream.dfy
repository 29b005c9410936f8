/** relayStream.Read: relay messages as one stream of bytes, whatever the size of
    the messages and of the caller's buffers. */
module RelayStream {

  type Byte = bv8

  datatype Message = Data(bytes: seq<Byte>) | Closed | Unexpected

  datatype Status = Ok | Eof | Error

  /** The bytes a peer sent before the stream ended. */
  function Payload(msgs: seq<Message>): seq<Byte> {
    if msgs == [] || !msgs[0].Data? then [] else msgs[0].bytes + Payload(msgs[1..])
  }

  /** How a stream ends that delivers `msgs` and then is closed by the peer or breaks. */
  function Ending(msgs: seq<Message>, broken: bool): Status {
    if msgs == [] then (if broken then Error else Eof)
    else if msgs[0].Data? then Ending(msgs[1..], broken)
    else if msgs[0].Closed? then Eof else Error
  }

  function Datas(chunks: seq<seq<Byte>>): seq<Message> {
    seq(|chunks|, i requires 0 <= i < |chunks| => Data(chunks[i]))
  }

  function Concat(chunks: seq<seq<Byte>>): seq<Byte> {
    if chunks == [] then [] else chunks[0] + Concat(chunks[1..])
  }

  /** The payload is what the data messages hold, one after the other, up to the
      first other message. The end is clean when that closes the stream, or when
      the peer closed it without one. */
  lemma {:induction false} StreamMeans(chunks: seq<seq<Byte>>, rest: seq<Message>, broken: bool)
    requires rest == [] || !rest[0].Data?
    ensures Payload(Datas(chunks) + rest) == Concat(chunks)
    ensures Ending(Datas(chunks) + rest, broken) == Eof <==> if rest == [] then !broken else rest[0] == Closed
    ensures Ending(Datas(chunks) + rest, broken) in {Eof, Error}
  {
    if chunks == [] {
      assert Datas(chunks) + rest == rest;
    } else {
      StreamMeans(chunks[1..], rest, broken);
      assert (Datas(chunks) + rest)[1..] == Datas(chunks[1..]) + rest;
      assert (Datas(chunks) + rest)[0] == Data(chunks[0]);
    }
  }

  class Stream {
    const msgs: seq<Message>
    const broken: bool
    var next: nat
    var pending: seq<Byte>

    ghost predicate Valid()
      reads this
    {
      next <= |msgs|
    }

    /** Everything the caller has not been given yet. */
    ghost function Unread(): seq<Byte>
      requires Valid()
      reads this
    {
      pending + Payload(msgs[next..])
    }

    constructor (msgs: seq<Message>, broken: bool)
      ensures Valid() && this.msgs == msgs && this.broken == broken && next == 0
      ensures Unread() == Payload(msgs)
    {
      this.msgs := msgs;
      this.broken := broken;
      next, pending := 0, [];
      new;
      assert msgs[0..] == msgs;
      assert [] + Payload(msgs) == Payload(msgs);
    }

    /** copy(p, bytes) */
    method Copy(p: array<Byte>, bytes: seq<Byte>) returns (n: nat)
      modifies p
      ensures n == (if p.Length < |bytes| then p.Length else |bytes|)
      ensures p[..n] == bytes[..n] && p[n..] == old(p[..])[n..]
    {
      n := if p.Length < |bytes| then p.Length else |bytes|;
      for i := 0 to n
        invariant p[..i] == bytes[..i] && p[i..] == old(p[..])[i..]
      {
        p[i] := bytes[i];
      }
    }

    /** Read: what it puts in the buffer is exactly what it takes off the stream,
        and it reports the end only when nothing is left. */
    method Read(p: array<Byte>) returns (n: nat, status: Status)
      requires Valid()
      modifies this, p
      ensures Valid() && n <= p.Length && old(next) <= next
      ensures p[n..] == old(p[..])[n..]
      ensures status == Ok ==> p[..n] + Unread() == old(Unread())
      ensures status == Ok ==> Ending(msgs[next..], broken) == Ending(msgs[old(next)..], broken)
      ensures status == Ok && p.Length > 0 && n == 0 ==> next > old(next)
      ensures status != Ok ==> n == 0 && old(Unread()) == [] && status == Ending(msgs[old(next)..], broken)
      ensures n < p.Length ==> pending == []
    {
      if |pending| > 0 {
        n := Copy(p, pending);
        assert pending == pending[..n] + pending[n..];
        pending := pending[n..];
        return n, Ok;
      }
      ghost var rest := msgs[next..];
      if next == |msgs| {
        return 0, if broken then Error else Eof;
      }
      var m := msgs[next];
      next := next + 1;
      assert rest[1..] == msgs[next..] && rest[0] == m;
      match m {
        case Closed => return 0, Eof;
        case Unexpected => return 0, Error;
        case Data(bytes) =>
          n := Copy(p, bytes);
          assert bytes == bytes[..n] + bytes[n..];
          pending := bytes[n..];
          return n, Ok;
      }
    }

    /** Reading with buffers of any sizes, as io.Copy does, until the end or until
        `sizes` runs out: the bytes come out in order, none lost and none twice.
        With as many buffers as bytes and messages are left, the end is reached. */
    method Drain(sizes: seq<nat>) returns (out: seq<Byte>, status: Status)
      requires Valid()
      modifies this
      ensures Valid()
      ensures status == Ok ==> out + Unread() == old(Unread())
      ensures status != Ok ==> out == old(Unread()) && status == Ending(msgs[old(next)..], broken)
      ensures 0 !in sizes && |sizes| > |old(Unread())| + |msgs| - old(next) ==> status != Ok
    {
      out, status := [], Ok;
      for k := 0 to |sizes|
        invariant Valid() && status == Ok
        invariant out + Unread() == old(Unread())
        invariant Ending(msgs[next..], broken) == Ending(msgs[old(next)..], broken)
        invariant 0 !in sizes ==> |Unread()| - next + k <= |old(Unread())| - old(next)
      {
        var buffer := new Byte[sizes[k]];
        var n: nat;
        ghost var before := Unread();
        n, status := Read(buffer);
        if status != Ok {
          assert out + before == out;
          return out, status;
        }
        assert out + before == out + buffer[..n] + Unread();
        out := out + buffer[..n];
      }
    }
  }
}
