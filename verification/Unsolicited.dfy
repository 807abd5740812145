/** The loop that feeds unclaimed input to a push consumer until it stops taking it. */
module Unsolicited {
  import opened Text

  /** What a consumer answers: how many characters it took, or that it threw. */
  datatype Answer = Took(length: int) | Threw

  type Consumer = Text -> Answer

  /** The pieces the consumer took, in order, and what is left in the buffer. */
  datatype Drained = Drained(pieces: seq<Text>, rest: Text, threw: bool)

  /** A throw drops the whole buffer; a length of zero or less leaves it for later. */
  function Drain(consume: Consumer, buffer: Text): Drained
    decreases |buffer|
  {
    if |buffer| == 0 then Drained([], [], false)
    else
      match consume(buffer)
      case Threw => Drained([], [], true)
      case Took(length) =>
        if length <= 0 then Drained([], buffer, false)
        else
          var cut := Min(length, |buffer|);
          var later := Drain(consume, buffer[cut..]);
          later.(pieces := [buffer[..cut]] + later.pieces)
  }

  /** A piece taken at the head of the buffer. */
  lemma {:induction false} DrainStep(consume: Consumer, piece: Text, others: Text)
    requires |piece| > 0 && consume(piece + others) == Took(|piece|)
    ensures Drain(consume, piece + others)
      == Drain(consume, others).(pieces := [piece] + Drain(consume, others).pieces)
  {
    var buffer := piece + others;
    assert buffer[..|piece|] == piece && buffer[|piece|..] == others;
  }

  predicate Waits(a: Answer) {
    a.Took? && a.length <= 0
  }

  /** An answer other than "wait" is about characters already received, and more input does
      not change it. */
  ghost predicate Stable(consume: Consumer) {
    forall buffer: Text, more: Text {:trigger consume(buffer + more)} ::
      !Waits(consume(buffer)) ==>
        && consume(buffer + more) == consume(buffer)
        && (consume(buffer).Took? ==> consume(buffer).length <= |buffer|)
  }

  lemma {:induction false} ThrowIsFinal(consume: Consumer, first: Text, second: Text)
    requires Stable(consume) && Drain(consume, first).threw
    ensures Drain(consume, first + second).threw
    decreases |first|
  {
    assert consume(first + second) == consume(first);
    if consume(first).Took? {
      var cut := consume(first).length;
      assert (first + second)[cut..] == first[cut..] + second;
      ThrowIsFinal(consume, first[cut..], second);
    }
  }

  /** What is left is left because the consumer waits for more of it. */
  lemma {:induction false} RestWaits(consume: Consumer, buffer: Text)
    requires !Drain(consume, buffer).threw
    ensures var rest := Drain(consume, buffer).rest;
      Drain(consume, rest) == Drained([], rest, false)
    decreases |buffer|
  {
    if |buffer| > 0 && !Waits(consume(buffer)) {
      RestWaits(consume, buffer[Min(consume(buffer).length, |buffer|)..]);
    }
  }

  lemma {:induction false} ThrownIsGone(consume: Consumer, buffer: Text)
    requires Drain(consume, buffer).threw
    ensures Drain(consume, buffer).rest == []
    decreases |buffer|
  {
    if |buffer| > 0 && consume(buffer).Took? {
      ThrownIsGone(consume, buffer[Min(consume(buffer).length, |buffer|)..]);
    }
  }

  /** Draining what arrived first, and the rest later, is draining everything at once. */
  lemma {:induction false} DrainInTwo(consume: Consumer, first: Text, second: Text)
    requires Stable(consume) && !Drain(consume, first).threw
    ensures var early := Drain(consume, first);
      var late := Drain(consume, early.rest + second);
      Drain(consume, first + second) == late.(pieces := early.pieces + late.pieces)
    decreases |first|
  {
    var early := Drain(consume, first);
    if |first| == 0 || consume(first).length <= 0 {
      assert early.pieces == [] && early.rest == first;
    } else {
      var cut := consume(first).length;
      assert consume(first + second) == consume(first);
      assert (first + second)[..cut] == first[..cut];
      assert (first + second)[cut..] == first[cut..] + second;
      DrainInTwo(consume, first[cut..], second);
      var tail := Drain(consume, first[cut..]);
      var late := Drain(consume, tail.rest + second);
      assert [first[..cut]] + (tail.pieces + late.pieces) == [first[..cut]] + tail.pieces + late.pieces;
    }
  }

  /** Chunk after chunk, with what the consumer left kept in between. */
  function Feed(consume: Consumer, buffer: Text, chunks: seq<Text>): Drained
    decreases |chunks|
  {
    if |chunks| == 0 then Drained([], buffer, false)
    else
      var now := Drain(consume, buffer + chunks[0]);
      var later := Feed(consume, now.rest, chunks[1..]);
      Drained(now.pieces + later.pieces, later.rest, now.threw || later.threw)
  }

  function Concat(chunks: seq<Text>): Text {
    if |chunks| == 0 then [] else chunks[0] + Concat(chunks[1..])
  }

  /** However the stream was cut, the consumer takes the same pieces in the same order and
      leaves the same rest, provided it never throws. */
  lemma {:induction false} FeedIsDrain(consume: Consumer, buffer: Text, chunks: seq<Text>)
    requires Stable(consume) && Drain(consume, buffer) == Drained([], buffer, false)
    requires !Drain(consume, buffer + Concat(chunks)).threw
    ensures Feed(consume, buffer, chunks) == Drain(consume, buffer + Concat(chunks))
    decreases |chunks|
  {
    if |chunks| == 0 {
      assert buffer + Concat(chunks) == buffer;
    } else {
      var tail := Concat(chunks[1..]);
      assert buffer + Concat(chunks) == buffer + chunks[0] + tail;
      var now := Drain(consume, buffer + chunks[0]);
      assert !now.threw by {
        if now.threw {
          ThrowIsFinal(consume, buffer + chunks[0], tail);
        }
      }
      DrainInTwo(consume, buffer + chunks[0], tail);
      RestWaits(consume, buffer + chunks[0]);
      FeedIsDrain(consume, now.rest, chunks[1..]);
    }
  }
}
