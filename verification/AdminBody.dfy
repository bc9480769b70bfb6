/** Reading a response body that arrives in pieces, up to a limit. */
module AdminBody {
  import opened JsonValue
  import opened Octets
  import opened Sequences

  /** What the transport hands over next: a piece of the body, or a broken connection. */
  datatype Piece = Chunk(bytes: Bytes) | Broken(reason: string)

  datatype Outcome = Complete(body: Bytes) | Truncated(body: Bytes) | Interrupted(reason: string)

  datatype Reading = Body(bytes: Bytes) | BodyTooLarge(limit: nat) | ResponseBody(reason: string)

  /** The bytes that arrive before the connection breaks, if it does. */
  function Arrived(pieces: seq<Piece>): Bytes {
    if pieces == [] || pieces[0].Broken? then [] else pieces[0].bytes + Arrived(pieces[1..])
  }

  function Break(pieces: seq<Piece>): Option<string> {
    if pieces == [] then None
    else if pieces[0].Broken? then Some(pieces[0].reason)
    else Break(pieces[1..])
  }

  /** What reading a body of these bytes gives, however it was cut into pieces. */
  function WholeRead(total: Bytes, broken: Option<string>, limit: nat): Outcome {
    if |total| > limit then Truncated(total[..limit])
    else if broken.Some? then Interrupted(broken.value)
    else Complete(total)
  }

  /** The chunked reader does what reading the whole body would do. */
  method ReadUpTo(pieces: seq<Piece>, limit: nat) returns (r: Outcome)
    ensures r == WholeRead(Arrived(pieces), Break(pieces), limit)
  {
    var body: Bytes := [];
    for i := 0 to |pieces|
      invariant |body| <= limit
      invariant Arrived(pieces) == body + Arrived(pieces[i..]) && Break(pieces) == Break(pieces[i..])
    {
      assert pieces[i..][0] == pieces[i] && pieces[i..][1..] == pieces[i + 1..];
      match pieces[i] {
        case Broken(reason) =>
          return Interrupted(reason);
        case Chunk(bytes) =>
          var remaining := limit - |body|;
          if |bytes| > remaining {
            ghost var rest := Arrived(pieces[i + 1..]);
            assert Arrived(pieces) == body + (bytes + rest);
            assert (body + (bytes + rest))[..limit] == body + bytes[..remaining];
            return Truncated(body + bytes[..remaining]);
          }
          assert body + (bytes + Arrived(pieces[i + 1..])) == (body + bytes) + Arrived(pieces[i + 1..]);
          body := body + bytes;
      }
    }
    r := Complete(body);
  }

  function LimitedRead(declared: Option<nat>, pieces: seq<Piece>, limit: nat): Reading {
    if declared.Some? && declared.value > limit then BodyTooLarge(limit)
    else match WholeRead(Arrived(pieces), Break(pieces), limit)
      case Complete(body) => Body(body)
      case Truncated(_) => BodyTooLarge(limit)
      case Interrupted(reason) => ResponseBody(reason)
  }

  method ReadLimited(declared: Option<nat>, pieces: seq<Piece>, limit: nat) returns (r: Reading)
    ensures r == LimitedRead(declared, pieces, limit)
    ensures r.Body? <==> !(declared.Some? && declared.value > limit) && |Arrived(pieces)| <= limit && Break(pieces).None?
    ensures r.Body? ==> r.bytes == Arrived(pieces)
  {
    if declared.Some? && declared.value > limit {
      return BodyTooLarge(limit);
    }
    var read := ReadUpTo(pieces, limit);
    match read {
      case Complete(body) => r := Body(body);
      case Truncated(_) => r := BodyTooLarge(limit);
      case Interrupted(reason) => r := ResponseBody(reason);
    }
  }

  /** The pieces of a body cut at arbitrary places. */
  function Chunks(cuts: seq<Bytes>): seq<Piece> {
    seq(|cuts|, i requires 0 <= i < |cuts| => Chunk(cuts[i]))
  }

  lemma {:induction false} OneMoreChunk(bytes: Bytes, rest: seq<Piece>)
    ensures Arrived([Chunk(bytes)] + rest) == bytes + Arrived(rest) && Break([Chunk(bytes)] + rest) == Break(rest)
  {
    assert ([Chunk(bytes)] + rest)[1..] == rest;
  }

  /** Every way to cut the bytes into pieces, empty ones included, arrives as those bytes. */
  lemma {:induction false} CutsArrive(cuts: seq<Bytes>, rest: seq<Piece>)
    ensures Arrived(Chunks(cuts) + rest) == Flatten(cuts) + Arrived(rest) && Break(Chunks(cuts) + rest) == Break(rest)
  {
    if cuts == [] {
      assert Chunks(cuts) + rest == rest;
      assert [] + Arrived(rest) == Arrived(rest);
    } else {
      var tail := Chunks(cuts[1..]) + rest;
      CutsArrive(cuts[1..], rest);
      OneMoreChunk(cuts[0], tail);
      assert Chunks(cuts) + rest == [Chunk(cuts[0])] + tail;
      SeqAssociative(cuts[0], Flatten(cuts[1..]), Arrived(rest));
    }
  }

  function Flatten(cuts: seq<Bytes>): Bytes {
    if cuts == [] then [] else cuts[0] + Flatten(cuts[1..])
  }

  /** However an unbroken body is cut, the first `limit` bytes are read, cut off exactly when
      there are more. */
  lemma {:induction false} CutsDoNotMatter(cuts: seq<Bytes>, limit: nat)
    ensures var total := Flatten(cuts);
            WholeRead(Arrived(Chunks(cuts)), Break(Chunks(cuts)), limit) ==
            if |total| > limit then Truncated(total[..limit]) else Complete(total)
  {
    CutsArrive(cuts, []);
    assert Chunks(cuts) + [] == Chunks(cuts) && Flatten(cuts) + [] == Flatten(cuts);
  }

  /** With an accurate declared length or none, an unbroken body is returned whole if and only if
      it fits; a declared length gets this wrong exactly when it overstates a body that fits. */
  lemma {:induction false} DeclaredLength(declared: Option<nat>, cuts: seq<Bytes>, limit: nat)
    ensures var total := Flatten(cuts);
            LimitedRead(declared, Chunks(cuts), limit) == (if |total| <= limit then Body(total) else BodyTooLarge(limit)) <==>
            !(declared.Some? && declared.value > limit && |total| <= limit)
    ensures declared == None || declared == Some(|Flatten(cuts)|) ==>
            LimitedRead(declared, Chunks(cuts), limit) ==
            if |Flatten(cuts)| <= limit then Body(Flatten(cuts)) else BodyTooLarge(limit)
  {
    CutsDoNotMatter(cuts, limit);
  }
}
