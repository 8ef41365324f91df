/** Buffered input over a reader that hands out the bytes in pieces of any sizes. */
module Zio {
  import opened Prototypes

  const EOZ: int := -1

  /** The bytes a reader still has: its pieces up to the first empty one, which means the end. */
  function Stream(pieces: seq<seq<Byte>>): seq<Byte> {
    if pieces == [] || pieces[0] == [] then [] else pieces[0] + Stream(pieces[1..])
  }

  function Flatten(pieces: seq<seq<Byte>>): seq<Byte> {
    if pieces == [] then [] else pieces[0] + Flatten(pieces[1..])
  }

  /** How the bytes are split does not matter, as long as no piece is empty. */
  lemma {:induction false} StreamIsFlat(pieces: seq<seq<Byte>>)
    requires forall i :: 0 <= i < |pieces| ==> pieces[i] != []
    ensures Stream(pieces) == Flatten(pieces)
  {
    if pieces != [] { StreamIsFlat(pieces[1..]); }
  }

  class ZIO {
    var n: nat
    var buf: seq<Byte>
    var p: nat
    var pieces: seq<seq<Byte>>

    predicate Valid()
      reads this
    {
      p + n == |buf|
    }

    /** Everything that can still be read. */
    function Remaining(): seq<Byte>
      reads this
      requires Valid()
    {
      buf[p..] + Stream(pieces)
    }

    constructor (pieces: seq<seq<Byte>>)
      ensures Valid() && Remaining() == Stream(pieces)
    {
      n, p, buf := 0, 0, [];
      this.pieces := pieces;
    }

    /** The reader: its next piece, empty at the end. */
    method Reader() returns (piece: seq<Byte>)
      modifies this`pieces
      ensures old(Stream(pieces)) == if piece == [] then [] else piece + Stream(pieces)
    {
      if pieces == [] { return []; }
      piece := pieces[0];
      pieces := pieces[1..];
    }

    /** luaZ_fill. */
    method Fill() returns (c: int)
      requires Valid() && n == 0
      modifies this
      ensures Valid() && (c == EOZ <==> old(Remaining()) == [])
      ensures c != EOZ ==> p > 0 && c == old(Remaining())[0] == buf[p - 1] && Remaining() == old(Remaining())[1..]
      ensures c == EOZ ==> n == 0
    {
      assert buf[p..] == [];
      var piece := Reader();
      if piece == [] { return EOZ; }
      n := |piece| - 1;
      buf := piece;
      p := 1;
      assert old(Remaining()) == piece + Stream(pieces);
      return piece[0];
    }

    /** luaZ_lookahead. */
    method Lookahead() returns (c: int)
      requires Valid()
      modifies this
      ensures Valid() && (c == EOZ <==> old(Remaining()) == [])
      ensures c != EOZ ==> 0 < n <= |Remaining()| && Remaining() == old(Remaining()) && c == Remaining()[0] == buf[p]
    {
      if n == 0 {
        c := Fill();
        if c == EOZ { return; }
        n := n + 1;
        p := p - 1;
        assert buf[p..] == [buf[p]] + buf[p + 1..];
      }
      return buf[p];
    }

    /** luaZ_read: copies size bytes to b and returns how many are missing. */
    method Read(b: array<Byte>, size: nat) returns (missing: nat)
      requires Valid() && size <= b.Length
      modifies this, b
      ensures Valid()
      ensures missing == if size <= |old(Remaining())| then 0 else size - |old(Remaining())|
      ensures b[..size - missing] == old(Remaining())[..size - missing]
      ensures missing == 0 ==> Remaining() == old(Remaining())[size..]
    {
      hide Stream, Remaining;
      var left := size;
      ghost var all := Remaining();
      while left > 0
        invariant 0 <= left <= size && Valid() && size - left <= |all|
        invariant Remaining() == all[size - left..]
        invariant b[..size - left] == all[..size - left]
      {
        var c := Lookahead();
        if c == EOZ { return left; }
        var m := if left <= n then left else n;
        Slices(all, size - left, m);
        Take(b, size - left, m);
        left := left - m;
      }
      return 0;
    }

    /** memcpy of m bytes from the buffer, which are then used up. */
    method Take(b: array<Byte>, at: nat, m: nat)
      requires Valid() && m <= n && at + m <= b.Length
      modifies this, b
      ensures Valid() && m <= |old(Remaining())|
      ensures b[..at + m] == old(b[..at]) + old(Remaining())[..m] && Remaining() == old(Remaining())[m..]
    {
      hide Stream;
      BufferFirst(buf, p, m, Stream(pieces));
      for i := 0 to m
        invariant b[..at] == old(b[..at]) && b[at..at + i] == buf[p..p + i]
        modifies b
      {
        b[at + i] := buf[p + i];
        assert b[at..at + i + 1] == b[at..at + i] + [buf[p + i]];
      }
      assert b[..at + m] == b[..at] + b[at..at + m];
      n := n - m;
      p := p + m;
    }
  }

  /** The next bytes are those of the buffer, and using them up leaves the rest of it. */
  lemma BufferFirst(buf: seq<Byte>, p: nat, m: nat, tail: seq<Byte>)
    requires p + m <= |buf|
    ensures (buf[p..] + tail)[..m] == buf[p..p + m] && (buf[p..] + tail)[m..] == buf[p + m..] + tail
  {
  }

  lemma Slices(all: seq<Byte>, at: nat, m: nat)
    requires at <= |all| && m <= |all| - at
    ensures all[..at] + all[at..][..m] == all[..at + m] && all[at..][m..] == all[at + m..]
  {
  }
}
