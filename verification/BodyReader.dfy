/** Reading a response body in exact-sized pieces, however the transport cut it. */
module BodyReader {
  import opened Pieces
  import opened Text

  type Bytes = seq<Byte>

  /** A piece cut in two between what was read before and what is left. */
  lemma CutPiece(before: Bytes, piece: Bytes, take: nat, left: Bytes)
    requires take <= |piece|
    ensures before + (piece + left) == (before + piece[..take]) + (piece[take..] + left)
    ensures take == |piece| ==> piece[..take] == piece && piece[take..] + left == left
  {
    assert piece == piece[..take] + piece[take..];
  }

  datatype Piece = Chunk(bytes: Bytes) | End | Broke

  class BodyReader {
    /** What the transport has still to deliver, in the pieces it chose; then it ends or breaks. */
    var arriving: seq<Bytes>
    const breaks: bool
    var pending: Option<Bytes>
    var finished: bool

    ghost predicate Valid()
      reads this
    {
      pending.Some? ==> |pending.value| > 0
    }

    /** Every byte still to be read. */
    ghost function Left(): Bytes
      reads this
    {
      (if pending.Some? then pending.value else []) + (if finished then [] else Flatten(arriving))
    }

    constructor (arriving: seq<Bytes>, breaks: bool)
      ensures Valid() && Left() == Flatten(arriving) && this.breaks == breaks
    {
      this.arriving, this.breaks := arriving, breaks;
      pending, finished := None, false;
    }

    /** The next piece: never empty, and nothing is lost or read twice. */
    method Pull() returns (piece: Piece)
      requires Valid()
      modifies this
      ensures Valid() && pending.None?
      ensures piece.Chunk? ==> |piece.bytes| > 0 && old(Left()) == piece.bytes + Left() && finished == old(finished)
      ensures !piece.Chunk? ==> old(Left()) == [] == Left()
      ensures !piece.Chunk? ==> finished && (piece.Broke? <==> breaks && !old(finished))
    {
      if pending.Some? {
        var out := pending.value;
        pending := None;
        return Chunk(out);
      }
      if finished {
        return End;
      }
      while |arriving| > 0
        invariant Valid() && pending.None? && !finished
        invariant Left() == old(Left())
        decreases |arriving|
      {
        var value := arriving[0];
        arriving := arriving[1..];
        if |value| > 0 {
          return Chunk(value);
        }
      }
      finished := true;
      return if breaks then Broke else End;
    }

    /** Exactly `n` bytes from the front, or `None` if the body ends or breaks first. */
    method ReadExactly(n: nat) returns (r: Option<Bytes>)
      requires Valid()
      modifies this
      ensures Valid()
      ensures r.Some? <==> n <= |old(Left())|
      ensures r.Some? ==> r.value == old(Left())[..n] && Left() == old(Left())[n..]
    {
      var chunks: seq<Bytes>, size: nat := [], 0;
      ghost var whole := Left();
      while size < n
        invariant Valid() && size <= n && |Flatten(chunks)| == size
        invariant whole == Flatten(chunks) + Left()
        decreases |Left()|
      {
        var piece := Pull();
        if !piece.Chunk? {
          return None;
        }
        var take := Min(|piece.bytes|, n - size);
        FlattenSnoc(chunks, piece.bytes[..take]);
        CutPiece(Flatten(chunks), piece.bytes, take, Left());
        chunks := chunks + [piece.bytes[..take]];
        PutBack(piece.bytes, take);
        size := size + take;
      }
      return Some(Flatten(chunks));
    }

    /** What was pulled and not taken stays pending. */
    method PutBack(piece: Bytes, take: nat)
      requires Valid() && pending.None? && take <= |piece|
      modifies this
      ensures Valid() && Left() == piece[take..] + old(Left())
    {
      if take < |piece| {
        pending := Some(piece[take..]);
      }
    }

    /** Everything left; `None` if the transport broke before the end. */
    method Rest() returns (r: Option<Bytes>)
      requires Valid()
      modifies this
      ensures Valid() && Left() == []
      ensures r.Some? ==> r.value == old(Left())
      ensures r.None? <==> breaks && !old(finished)
    {
      var chunks: seq<Bytes> := [];
      ghost var whole := Left();
      while true
        invariant Valid() && whole == Flatten(chunks) + Left() && finished == old(finished)
        decreases |Left()|
      {
        var piece := Pull();
        match piece {
          case Chunk(bytes) =>
            FlattenSnoc(chunks, bytes);
            CutPiece(Flatten(chunks), bytes, |bytes|, Left());
            chunks := chunks + [bytes];
          case End =>
            return Some(Flatten(chunks));
          case Broke =>
            return None;
        }
      }
    }

    /** Nothing can be read after it. */
    method Cancel()
      requires Valid()
      modifies this
      ensures Valid() && Left() == (if old(finished) then old(Left()) else [])
    {
      if finished {
        return;
      }
      finished := true;
      pending := None;
    }
  }
}
