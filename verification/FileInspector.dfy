/**
 The design file inspector reads only the first bytes of a file (src/mockups/file-inspector.ts:17-33).
 The HTTP response body is the sequence of chunks its reader delivers.
 */
module FileInspector {
  import opened Bytes
  import Jpeg

  function Joined(chunks: seq<seq<Byte>>): seq<Byte> {
    if chunks == [] then [] else Joined(chunks[..|chunks| - 1]) + chunks[|chunks| - 1]
  }

  function FirstBytes(s: seq<Byte>, max: nat): (r: seq<Byte>)
    ensures r <= s && |r| == if |s| <= max then |s| else max
  {
    if |s| <= max then s else s[..max]
  }

  lemma JoinedNext(chunks: seq<seq<Byte>>, n: nat)
    requires n < |chunks|
    ensures Joined(chunks[..n + 1]) == Joined(chunks[..n]) + chunks[n]
  {
    assert chunks[..n + 1][..n] == chunks[..n];
  }

  lemma {:induction false} JoinedPrefix(chunks: seq<seq<Byte>>, n: nat)
    requires n <= |chunks|
    ensures Joined(chunks[..n]) <= Joined(chunks)
    decreases |chunks| - n
  {
    if n < |chunks| {
      JoinedNext(chunks, n);
      JoinedPrefix(chunks, n + 1);
    } else {
      assert chunks[..n] == chunks;
    }
  }

  /** Copies the pieces one behind the other into one buffer. */
  method Assemble(pieces: seq<seq<Byte>>, total: nat) returns (result: array<Byte>)
    requires total == |Joined(pieces)|
    ensures fresh(result) && result[..] == Joined(pieces)
  {
    result := new Byte[total];
    var n, offset := 0, 0;
    while n < |pieces|
      invariant 0 <= n <= |pieces| && offset == |Joined(pieces[..n])| <= total
      invariant result[..offset] == Joined(pieces[..n])
    {
      JoinedNext(pieces, n);
      JoinedPrefix(pieces, n + 1);
      ghost var before := result[..offset];
      var piece := pieces[n];
      forall k | 0 <= k < |piece| { result[offset + k] := piece[k]; }
      assert result[..offset + |piece|] == before + piece;
      offset := offset + |piece|;
      n := n + 1;
    }
    assert pieces[..n] == pieces;
  }

  /** Reads chunks until `max` bytes are there: the result is the first `max` bytes of the body. */
  method ReadPrefix(chunks: seq<seq<Byte>>, max: nat) returns (result: array<Byte>)
    ensures fresh(result) && result[..] == FirstBytes(Joined(chunks), max)
  {
    var pieces: seq<seq<Byte>>, total, n := [], 0, 0;
    while total < max && n < |chunks|
      invariant 0 <= n <= |chunks| && total == |Joined(pieces)|
      invariant Joined(pieces) == FirstBytes(Joined(chunks[..n]), max)
    {
      JoinedNext(chunks, n);
      var value := chunks[n];
      var take := if |value| < max - total then value else value[..max - total];
      assert (pieces + [take])[..|pieces|] == pieces;
      pieces, total, n := pieces + [take], total + |take|, n + 1;
      if |take| < |value| { break; }
    }
    JoinedPrefix(chunks, n);
    if total < max {
      assert chunks[..n] == chunks;
    }
    result := Assemble(pieces, total);
  }

  /** What the inspector finds in the first bytes of a JPEG file is what the whole file says. */
  lemma PrefixIsEnough(file: seq<Byte>, max: nat)
    requires Jpeg.JpegDimensions(FirstBytes(file, max)).Some?
    ensures Jpeg.JpegDimensions(file) == Jpeg.JpegDimensions(FirstBytes(file, max))
  {
    hide Jpeg.JpegDimensions;
    var first := FirstBytes(file, max);
    assert file == first + file[|first|..];
    Jpeg.AnswerIsStable(first, file[|first|..]);
  }
}
