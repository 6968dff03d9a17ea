/** A ZeroMQ multipart message (common/mmessage.cpp): an optional sender
  * identity and a body of string parts, sent as the frames
  * [identity][empty delimiter][body_0][body_1]... The socket is modelled by
  * the frame sequence sent or the frames available to receive, and the
  * protobuf parts are opaque strings. */
module MMessages {
  import opened Wrappers

  /** One frame of a multipart message and its "more" flag. */
  datatype Frame = Frame(data: string, more: bool)

  /** The frames SendTo emits: the identity if it is non-empty, the empty
    * delimiter, then every part; "more" is set on every frame but the last. */
  function Sent(identity: string, body: seq<string>): (frames: seq<Frame>)
    ensures |frames| == (if identity != "" then 1 else 0) + 1 + |body|
    ensures !frames[|frames| - 1].more
    ensures forall i :: 0 <= i < |frames| - 1 ==> frames[i].more
  {
    (if identity != "" then [Frame(identity, true)] else []) +
    [Frame("", |body| > 0)] +
    seq(|body|, i requires 0 <= i < |body| => Frame(body[i], i < |body| - 1))
  }

  /** The parts from frame i on, up to and including the first frame that
    * has no "more" flag; running out of frames is a malformed message. */
  function ReadParts(frames: seq<Frame>, i: nat): Result<seq<string>, string>
    decreases |frames| - i
  {
    if i >= |frames| then Err("Malformed multi-part message")
    else if !frames[i].more then Ok([frames[i].data])
    else
      match ReadParts(frames, i + 1)
      case Err(e) => Err(e)
      case Ok(rest) => Ok([frames[i].data] + rest)
  }

  /** ReceiveFrom on a frame sequence: the identity is the first frame; a
    * non-empty identity is followed by the delimiter; then the parts. A
    * frame without "more" ends the message early. */
  function Received(frames: seq<Frame>): Result<(string, seq<string>), string>
  {
    if |frames| == 0 then Err("Malformed multi-part message")
    else
      var identity := frames[0].data;
      if !frames[0].more then Ok((identity, []))
      else if identity != "" then
        if |frames| == 1 then Err("Malformed multi-part message")
        else if !frames[1].more then Ok((identity, []))
        else
          match ReadParts(frames, 2)
          case Err(e) => Err(e)
          case Ok(body) => Ok((identity, body))
      else
        match ReadParts(frames, 1)
        case Err(e) => Err(e)
        case Ok(body) => Ok((identity, body))
  }

  /** The parts already read, in front of a read that may still fail. */
  function Prepend(parts: seq<string>, r: Result<seq<string>, string>): Result<seq<string>, string>
  {
    match r
    case Err(e) => Err(e)
    case Ok(rest) => Ok(parts + rest)
  }

  /** The parts from position k of the body frames are read back. */
  lemma {:induction false} ReadPartsOfSent(frames: seq<Frame>, start: nat, body: seq<string>, k: nat)
    requires |body| > 0 && k < |body| && start + |body| == |frames|
    requires forall j :: 0 <= j < |body| ==> frames[start + j] == Frame(body[j], j < |body| - 1)
    ensures ReadParts(frames, start + k) == Ok(body[k..])
    decreases |body| - k
  {
    if k < |body| - 1 {
      ReadPartsOfSent(frames, start, body, k + 1);
      assert body[k..] == [body[k]] + body[k + 1..];
    } else {
      assert body[k..] == [body[k]];
    }
  }

  /** Receiving what SendTo sent restores the identity and the body. */
  lemma RoundTrip(identity: string, body: seq<string>)
    ensures Received(Sent(identity, body)) == Ok((identity, body))
  {
    var frames := Sent(identity, body);
    var start := if identity != "" then 2 else 1;
    if |body| > 0 {
      assert forall j :: 0 <= j < |body| ==> frames[start + j] == Frame(body[j], j < |body| - 1);
      ReadPartsOfSent(frames, start, body, 0);
      assert body[0..] == body;
    }
  }

  class MMessage {
    var identity: string
    var body: seq<string>

    constructor()
      ensures identity == "" && body == []
    {
      identity := "";
      body := [];
    }

    function Size(): nat
      reads this
    {
      |body|
    }

    method SetIdentity(id: string)
      modifies this
      ensures identity == id && body == old(body)
      ensures GetIdentity() == id && (HasIdentity() <==> id != "")
    {
      identity := id;
    }

    function GetIdentity(): string
      reads this
    {
      identity
    }

    predicate HasIdentity()
      reads this
    {
      identity != ""
    }

    /** Push: appends one part. */
    method Push(data: string)
      modifies this
      ensures body == old(body) + [data] && identity == old(identity)
      ensures Size() == old(Size()) + 1 && GetString(Size() - 1) == data
    {
      body := body + [data];
    }

    /** Pop: removes and returns the last part; the body must not be empty. */
    method Pop() returns (back: string)
      requires |body| > 0
      modifies this
      ensures old(body) == body + [back] && identity == old(identity)
    {
      back := body[|body| - 1];
      body := body[..|body| - 1];
    }

    /** EnsureBodySize: pads the body with empty parts up to sz parts. */
    method EnsureBodySize(sz: nat)
      modifies this
      ensures |body| == if |old(body)| < sz then sz else |old(body)|
      ensures body[..|old(body)|] == old(body)
      ensures forall j :: |old(body)| <= j < |body| ==> body[j] == ""
      ensures identity == old(identity)
    {
      ghost var before := body;
      while |body| < sz
        invariant |before| <= |body| <= if |before| < sz then sz else |before|
        invariant body[..|before|] == before
        invariant forall j :: |before| <= j < |body| ==> body[j] == ""
        invariant identity == old(identity)
        decreases sz - |body|
      {
        body := body + [""];
      }
    }

    /** Set: overwrites part index, padding the body first; no other part
      * changes. */
    method Set(index: nat, data: string)
      modifies this
      ensures |body| == if |old(body)| <= index then index + 1 else |old(body)|
      ensures body[index] == data && GetString(index) == data
      ensures forall j :: 0 <= j < |body| && j != index ==> body[j] == if j < |old(body)| then old(body)[j] else ""
      ensures identity == old(identity)
    {
      EnsureBodySize(index + 1);
      body := body[index := data];
    }

    /** GetString: part index, which must exist (a fatal check). */
    function GetString(index: nat): string
      requires index < |body|
      reads this
    {
      body[index]
    }

    method Clear()
      modifies this
      ensures identity == "" && body == []
    {
      identity := "";
      body := [];
    }

    /** SendTo: the frames sent, in order. */
    method SendTo() returns (frames: seq<Frame>)
      ensures frames == Sent(identity, body)
    {
      frames := [];
      if identity != "" {
        frames := frames + [Frame(identity, true)];
      }
      frames := frames + [Frame("", |body| > 0)];
      ghost var header := frames;
      var remaining := |body|;
      var i := 0;
      while i < |body|
        invariant 0 <= i <= |body| && remaining == |body| - i
        invariant |frames| == |header| + i && frames[..|header|] == header
        invariant forall j :: 0 <= j < i ==> frames[|header| + j] == Frame(body[j], j < |body| - 1)
      {
        frames := frames + [Frame(body[i], remaining - 1 > 0)];
        remaining := remaining - 1;
        i := i + 1;
      }
      assert frames == Sent(identity, body) by {
        var sent := Sent(identity, body);
        assert sent[..|header|] == header;
        forall j | |header| <= j < |frames| ensures frames[j] == sent[j] {
          assert frames[|header| + (j - |header|)] == Frame(body[j - |header|], j - |header| < |body| - 1);
        }
      }
    }

    /** ReceiveFrom: clears the message, then reads the frames as Received
      * describes; a missing frame is an error, after which the message
      * holds what was read so far. */
    method ReceiveFrom(frames: seq<Frame>) returns (r: Result<(), string>)
      modifies this
      ensures Received(frames).Ok? ==> r.Ok? && identity == Received(frames).value.0 && body == Received(frames).value.1
      ensures Received(frames).Err? ==> r.Err?
    {
      Clear();
      if |frames| == 0 {
        return Err("Malformed multi-part message");
      }
      identity := frames[0].data;
      if !frames[0].more {
        return Ok(());
      }
      var next := 1;
      if identity != "" {
        if |frames| == 1 {
          return Err("Malformed multi-part message");
        }
        next := 2;
        if !frames[1].more {
          return Ok(());
        }
      }
      var more := true;
      ghost var start := next;
      assert forall rest: seq<string> {:trigger [] + rest} :: [] + rest == rest;
      while more
        invariant start <= next <= |frames| && identity == frames[0].data
        invariant more ==> ReadParts(frames, start) == Prepend(body, ReadParts(frames, next))
        invariant !more ==> ReadParts(frames, start) == Ok(body)
        decreases |frames| - next
      {
        if next >= |frames| {
          return Err("Malformed multi-part message");
        }
        ghost var read := body;
        more := frames[next].more;
        Push(frames[next].data);
        if more && ReadParts(frames, next + 1).Ok? {
          var rest := ReadParts(frames, next + 1).value;
          assert read + ([frames[next].data] + rest) == body + rest;
        }
        next := next + 1;
      }
      r := Ok(());
    }
  }
}
