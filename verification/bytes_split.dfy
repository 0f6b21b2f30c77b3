/** Splitting a byte string at separators, as slice `split` does: always at least one piece. */
module BytesSplit {
  import opened Common

  type Separator = byte -> bool

  ghost predicate Without(piece: Bytes, sep: Separator) {
    forall i :: 0 <= i < |piece| ==> !sep(piece[i])
  }

  function Split(b: Bytes, sep: Separator): (pieces: seq<Bytes>)
    ensures |pieces| > 0
  {
    if b == [] then [[]]
    else
      var rest := Split(b[1..], sep);
      if sep(b[0]) then [[]] + rest else [[b[0]] + rest[0]] + rest[1..]
  }

  /** The pieces with one separator byte between neighbours. */
  function Join(pieces: seq<Bytes>, glue: byte): Bytes
    requires |pieces| > 0
  {
    if |pieces| == 1 then pieces[0] else pieces[0] + [glue] + Join(pieces[1..], glue)
  }

  lemma {:induction false} PiecesWithout(b: Bytes, sep: Separator)
    ensures forall i :: 0 <= i < |Split(b, sep)| ==> Without(Split(b, sep)[i], sep)
  {
    if b != [] {
      PiecesWithout(b[1..], sep);
      var rest := Split(b[1..], sep);
      var pieces := Split(b, sep);
      forall i | 0 <= i < |pieces|
        ensures Without(pieces[i], sep)
      {
        if i > 0 {
          assert pieces[i] == if sep(b[0]) then rest[i - 1] else rest[i];
        } else if !sep(b[0]) {
          assert pieces[0] == [b[0]] + rest[0];
        }
      }
    }
  }

  /** The first piece is the part before the first separator. */
  lemma {:induction false} FirstPiece(b: Bytes, sep: Separator)
    ensures Split(b, sep)[0] <= b
    ensures |Split(b, sep)[0]| < |b| ==> sep(b[|Split(b, sep)[0]|])
  {
    if b != [] && !sep(b[0]) {
      FirstPiece(b[1..], sep);
      assert b == [b[0]] + b[1..];
    }
  }

  lemma {:induction false} SplitPiece(piece: Bytes, glue: byte, rest: Bytes, sep: Separator)
    requires Without(piece, sep) && sep(glue)
    ensures Split(piece + [glue] + rest, sep) == [piece] + Split(rest, sep)
    ensures Split(piece, sep) == [piece]
  {
    if piece == [] {
      assert piece + [glue] + rest == [glue] + rest;
    } else {
      assert !sep(piece[0]);
      SplitPiece(piece[1..], glue, rest, sep);
      assert (piece + [glue] + rest)[1..] == piece[1..] + [glue] + rest;
      assert [piece[0]] + piece[1..] == piece;
    }
  }

  /** The pieces of a joined string are the joined pieces, if none of them holds a separator. */
  lemma {:induction false} SplitJoin(pieces: seq<Bytes>, glue: byte, sep: Separator)
    requires |pieces| > 0 && sep(glue) && forall i :: 0 <= i < |pieces| ==> Without(pieces[i], sep)
    ensures Split(Join(pieces, glue), sep) == pieces
  {
    if |pieces| == 1 {
      SplitPiece(pieces[0], glue, [], sep);
      assert pieces == [pieces[0]];
    } else {
      SplitPiece(pieces[0], glue, Join(pieces[1..], glue), sep);
      SplitJoin(pieces[1..], glue, sep);
      assert pieces == [pieces[0]] + pieces[1..];
    }
  }

  lemma JoinOneMore(c: byte, pieces: seq<Bytes>, glue: byte)
    requires |pieces| > 0
    ensures Join([[]] + pieces, glue) == [glue] + Join(pieces, glue)
    ensures Join([[c] + pieces[0]] + pieces[1..], glue) == [c] + Join(pieces, glue)
  {
    assert ([[]] + pieces)[1..] == pieces;
    var grown := [[c] + pieces[0]] + pieces[1..];
    assert grown[1..] == pieces[1..];
  }

  /** With a single separator byte, joining the pieces gives the string back. */
  lemma {:induction false} JoinSplit(b: Bytes, glue: byte, sep: Separator)
    requires forall c: byte :: sep(c) <==> c == glue
    ensures Join(Split(b, sep), glue) == b
  {
    if b != [] {
      JoinSplit(b[1..], glue, sep);
      hide Join;
      JoinOneMore(b[0], Split(b[1..], sep), glue);
      assert b == [b[0]] + b[1..];
    }
  }
}
