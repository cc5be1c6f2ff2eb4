/**
 * Geometry encoding: the primitive of a mesh inferred from the arity of its
 * faces, and the filtering of UV channels against the vertex count.
 */
module Geometry {
  import opened Wrappers
  import opened Vectors
  import opened Nodes

  /** True when every face has exactly k indices. */
  predicate AllOfArity(faces: seq<Face>, k: nat) {
    forall i | 0 <= i < |faces| :: |faces[i]| == k
  }

  /**
   * The arity every face shares, scanning the faces in order: None when
   * there are no faces or two faces differ in arity.
   */
  function CommonArity(faces: seq<Face>): (r: Option<nat>)
    ensures forall k: nat :: r == Some(k) <==> faces != [] && AllOfArity(faces, k)
  {
    if faces == [] then None
    else if |faces| == 1 then Some(|faces[0]|)
    else
      var rest := CommonArity(faces[1..]);
      if rest == Some(|faces[0]|) then rest else None
  }

  /**
   * The primitive inferred from a list of faces: TRIANGLES when every face
   * has 3 indices, LINES when every face has 2, UNKNOWN in every other case
   * (no faces, faces of another arity, and, as this model chooses, faces of
   * mixed arities). The contract speaks of faces of one arity only.
   */
  function InferPrimitive(faces: seq<Face>): (p: Primitive)
    ensures faces == [] ==> p == Unknown
    ensures forall k: nat | faces != [] && AllOfArity(faces, k) ::
      (p == Triangles <==> k == 3) && (p == Lines <==> k == 2) && (p == Unknown <==> k != 2 && k != 3)
  {
    match CommonArity(faces)
    case Some(3) => Triangles
    case Some(2) => Lines
    case _ => Unknown
  }

  /** A UV channel is kept when it is non-empty and has one coordinate per vertex. */
  predicate KeepChannel(channel: seq<Vec2>, vertexCount: nat) {
    channel != [] && |channel| == vertexCount
  }

  /** The UV channels that are kept, in their original order. */
  function KeptChannels(channels: seq<seq<Vec2>>, vertexCount: nat): (kept: seq<seq<Vec2>>)
    ensures |kept| <= |channels|
    ensures forall i | 0 <= i < |kept| :: KeepChannel(kept[i], vertexCount)
    ensures forall c :: c in kept <==> c in channels && KeepChannel(c, vertexCount)
  {
    if channels == [] then []
    else
      var rest := KeptChannels(channels[1..], vertexCount);
      assert forall c :: c in channels <==> c == channels[0] || c in channels[1..];
      if KeepChannel(channels[0], vertexCount) then [channels[0]] + rest else rest
  }

  // ---------------------------------------------------------------------
  // Primitive inference

  /** Faces all of 3 indices give TRIANGLES. */
  lemma TrianglesFromTriples(faces: seq<Face>)
    requires faces != [] && AllOfArity(faces, 3)
    ensures InferPrimitive(faces) == Triangles
  {
  }

  /** Faces all of 2 indices give LINES. */
  lemma LinesFromPairs(faces: seq<Face>)
    requires faces != [] && AllOfArity(faces, 2)
    ensures InferPrimitive(faces) == Lines
  {
  }

  /** Faces that are all empty give UNKNOWN. */
  lemma UnknownFromEmptyFaces(faces: seq<Face>)
    requires faces != [] && AllOfArity(faces, 0)
    ensures InferPrimitive(faces) == Unknown
  {
  }

  /**
   * For faces of one arity, TRIANGLES and LINES are inferred exactly when
   * that arity is 3 and 2; mixed arities are outside this statement.
   */
  lemma InferredOnlyFromUniformArity(faces: seq<Face>)
    requires exists k: nat :: AllOfArity(faces, k)
    ensures InferPrimitive(faces) == Triangles <==> faces != [] && AllOfArity(faces, 3)
    ensures InferPrimitive(faces) == Lines <==> faces != [] && AllOfArity(faces, 2)
  {
    var k: nat :| AllOfArity(faces, k);
    if faces != [] {
      assert |faces[0]| == k;
    }
  }

  // ---------------------------------------------------------------------
  // UV channels

  /** Filtering a concatenation filters each part and keeps their order. */
  lemma {:induction false} KeptChannelsAppend(x: seq<seq<Vec2>>, y: seq<seq<Vec2>>, vertexCount: nat)
    ensures KeptChannels(x + y, vertexCount) == KeptChannels(x, vertexCount) + KeptChannels(y, vertexCount)
  {
    if x != [] {
      assert (x + y)[0] == x[0];
      assert (x + y)[1..] == x[1..] + y;
      KeptChannelsAppend(x[1..], y, vertexCount);
    } else {
      assert x + y == y;
    }
  }

  /** A single channel is kept alone or dropped. */
  lemma KeptChannelsSingleton(channel: seq<Vec2>, vertexCount: nat)
    ensures KeptChannels([channel], vertexCount) == if KeepChannel(channel, vertexCount) then [channel] else []
  {
    assert [channel][1..] == [];
  }

  /** Channels that are all kept pass through unchanged. */
  lemma {:induction false} KeptChannelsAllValid(channels: seq<seq<Vec2>>, vertexCount: nat)
    requires forall i | 0 <= i < |channels| :: KeepChannel(channels[i], vertexCount)
    ensures KeptChannels(channels, vertexCount) == channels
  {
    if channels != [] {
      KeptChannelsAllValid(channels[1..], vertexCount);
    }
  }

  /** Channels that are all empty are all dropped. */
  lemma {:induction false} KeptChannelsAllEmpty(channels: seq<seq<Vec2>>, vertexCount: nat)
    requires forall i | 0 <= i < |channels| :: channels[i] == []
    ensures KeptChannels(channels, vertexCount) == []
  {
    if channels != [] {
      KeptChannelsAllEmpty(channels[1..], vertexCount);
    }
  }

  /** No channels, one empty channel and two empty channels all give zero channels. */
  lemma EmptyChannelLists(vertexCount: nat)
    ensures KeptChannels([], vertexCount) == []
    ensures KeptChannels([[]], vertexCount) == []
    ensures KeptChannels([[], []], vertexCount) == []
  {
    KeptChannelsAllEmpty([[]], vertexCount);
    KeptChannelsAllEmpty([[], []], vertexCount);
  }
}
