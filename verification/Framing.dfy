/** Length-prefixed messages read off a byte stream that has no boundaries of its own. */
module Framing {
  import opened Numbers
  import opened Config
  import opened Bytes

  const MAX_MESSAGE_BYTES := 65536

  datatype NetError = Malformed(what: string)

  /** One framed message. */
  function Frame(body: seq<byte>): (f: seq<byte>)
    requires |body| < 0x1_0000_0000
    ensures |f| == 4 + |body|
  {
    LeBytes(|body|, 4) + body
  }

  function Frames(bodies: seq<seq<byte>>): seq<byte>
    requires Small(bodies)
  {
    if bodies == [] then [] else Frame(bodies[0]) + Frames(bodies[1..])
  }

  predicate Small(bodies: seq<seq<byte>>) {
    forall k :: 0 <= k < |bodies| ==> |bodies[k]| <= MAX_MESSAGE_BYTES
  }

  function Joined(chunks: seq<seq<byte>>): seq<byte> {
    if chunks == [] then [] else chunks[0] + Joined(chunks[1..])
  }

  /** What the front of a stream announces. */
  datatype Head = Waiting | TooLong | Ready(body: seq<byte>)

  function HeadOf(s: seq<byte>): Head {
    if |s| < 4 then Waiting
    else
      var len := FromLe(s[..4]);
      if len > MAX_MESSAGE_BYTES then TooLong
      else if |s| < 4 + len then Waiting
      else Ready(s[4..4 + len])
  }

  /** A stream opening with a frame announces its body, whatever follows. */
  lemma {:induction false} FrameIsReady(body: seq<byte>, rest: seq<byte>)
    requires |body| <= MAX_MESSAGE_BYTES
    ensures HeadOf(Frame(body) + rest) == Ready(body)
    ensures (Frame(body) + rest)[4 + |body|..] == rest
  {
    WordWidths();
    LeRoundTrips(|body|, 4);
    assert (Frame(body) + rest)[..4] == LeBytes(|body|, 4);
    assert (Frame(body) + rest)[4..4 + |body|] == body;
  }

  /** A proper prefix of a frame announces nothing yet. */
  lemma {:induction false} PrefixIsWaiting(body: seq<byte>, rest: seq<byte>, s: seq<byte>)
    requires |body| <= MAX_MESSAGE_BYTES && s <= Frame(body) + rest && |s| < 4 + |body|
    ensures HeadOf(s) == Waiting
  {
    if |s| >= 4 {
      FrameIsReady(body, rest);
      assert s[..4] == (Frame(body) + rest)[..4] == LeBytes(|body|, 4);
      WordWidths();
      LeRoundTrips(|body|, 4);
    }
  }

  class Framer {
    var buf: seq<byte>
    /** Bytes of `buf` before this one are already taken. */
    var at: nat

    ghost predicate Valid()
      reads this
    {
      at <= |buf|
    }

    /** Bytes read and not yet handed out. */
    ghost function Pending(): seq<byte>
      reads this
      requires Valid()
    {
      buf[at..]
    }

    constructor ()
      ensures Valid() && Pending() == []
    {
      buf, at := [], 0;
    }

    /** Appends to what is pending, compacting once enough has been taken. */
    method Push(bytes: seq<byte>)
      requires Valid()
      modifies this
      ensures Valid() && Pending() == old(Pending()) + bytes
    {
      if at > 0 {
        buf := buf[at..];
        at := 0;
      }
      buf := buf + bytes;
    }

    /** One body off the front, if all of it is there and its length is allowed. */
    method Take() returns (r: Result<Option<seq<byte>>, NetError>)
      requires Valid()
      modifies this`at
      ensures Valid()
      ensures match HeadOf(old(Pending())) {
        case Waiting => r == Ok(None) && Pending() == old(Pending())
        case TooLong => r.Err? && Pending() == old(Pending())
        case Ready(body) => r == Ok(Some(body)) && Pending() == old(Pending())[4 + |body|..]
      }
    {
      var head := at;
      var waiting := |buf| - head;
      if waiting < 4 {
        return Ok(None);
      }
      assert Pending()[..4] == buf[head..head + 4];
      var len := FromLe(buf[head..head + 4]);
      if len > MAX_MESSAGE_BYTES {
        return Err(Malformed("client frame length"));
      }
      if waiting < 4 + len {
        return Ok(None);
      }
      ghost var pending := Pending();
      assert pending[4..4 + len] == buf[head + 4..head + 4 + len];
      at := head + 4 + len;
      assert Pending() == pending[4 + len..];
      return Ok(Some(buf[head + 4..head + 4 + len]));
    }

    /** Takes until nothing more has arrived. `expected` is what the stream is known to
        hold from here on. */
    method TakeAll(ghost expected: seq<seq<byte>>, ghost later: seq<byte>) returns (bodies: seq<seq<byte>>)
      requires Valid() && Small(expected) && Pending() + later == Frames(expected)
      modifies this`at
      ensures Valid() && bodies <= expected
      ensures Pending() + later == Frames(expected[|bodies|..])
      ensures HeadOf(Pending()) == Waiting
      ensures later == [] ==> bodies == expected && Pending() == []
    {
      bodies := [];
      assert expected[0..] == expected;
      while true
        invariant Valid() && bodies <= expected
        invariant Pending() + later == Frames(expected[|bodies|..])
        decreases |expected| - |bodies|
      {
        ghost var rest := expected[|bodies|..];
        NextTake(rest, Pending(), later);
        var r := Take();
        if r.Err? || r.value.None? {
          return;
        }
        assert rest[1..] == expected[|bodies| + 1..];
        bodies := bodies + [r.value.value];
      }
    }
  }

  /** Where the stream is some frames, the next take yields the first of them or waits
      for its end. */
  lemma {:induction false} NextTake(rest: seq<seq<byte>>, pending: seq<byte>, later: seq<byte>)
    requires Small(rest) && pending + later == Frames(rest)
    ensures rest == [] ==> HeadOf(pending) == Waiting && pending == []
    ensures rest != [] && HeadOf(pending) != Waiting ==>
      && HeadOf(pending) == Ready(rest[0]) && |pending| >= 4 + |rest[0]|
      && pending[4 + |rest[0]|..] + later == Frames(rest[1..])
    ensures rest != [] && HeadOf(pending) == Waiting ==> later != []
  {
    if rest != [] {
      var body, tail := rest[0], Frames(rest[1..]);
      FrameIsReady(body, tail);
      assert pending <= Frame(body) + tail;
      if |pending| < 4 + |body| {
        PrefixIsWaiting(body, tail, pending);
      } else {
        var over := pending[4 + |body|..];
        assert pending == Frame(body) + over;
        FrameIsReady(body, over);
        assert (pending + later)[4 + |body|..] == over + later;
      }
    }
  }

  /** Frames any chunking of a stream of messages: exactly the bodies come out, in order,
      and nothing is left over. */
  method ReadChunks(chunks: seq<seq<byte>>, ghost bodies: seq<seq<byte>>) returns (out: seq<seq<byte>>)
    requires Small(bodies) && Joined(chunks) == Frames(bodies)
    ensures out == bodies
  {
    var f := new Framer();
    out := [];
    assert bodies[0..] == bodies && chunks[0..] == chunks;
    for k := 0 to |chunks|
      invariant f.Valid() && fresh(f) && out <= bodies
      invariant f.Pending() + Joined(chunks[k..]) == Frames(bodies[|out|..])
      invariant k == |chunks| && k > 0 ==> out == bodies
    {
      ghost var later := Joined(chunks[k + 1..]);
      assert chunks[k..][1..] == chunks[k + 1..];
      ghost var pending := f.Pending();
      f.Push(chunks[k]);
      assert f.Pending() + later == pending + Joined(chunks[k..]);
      ghost var expected := bodies[|out|..];
      var got := f.TakeAll(expected, later);
      assert expected[|got|..] == bodies[|out| + |got|..];
      out := out + got;
      assert k + 1 == |chunks| ==> later == [];
    }
    if chunks == [] {
      NothingFramed(bodies, chunks);
    }
  }

  lemma {:induction false} NothingFramed(bodies: seq<seq<byte>>, chunks: seq<seq<byte>>)
    requires Small(bodies) && Joined(chunks) == Frames(bodies) && chunks == []
    ensures bodies == []
  {
  }
}
