/** The splitter of dependency lists, which leaves version ranges such as `[1.0,2.0)` whole. */
module Dependencies {
  import opened Text

  function Next(depth: nat, c: char): nat {
    if c == '[' || c == '(' then depth + 1
    else if (c == ']' || c == ')') && depth > 0 then depth - 1
    else depth
  }

  function Depth(s: string, depth: nat): nat {
    if s == "" then depth else Depth(s[1..], Next(depth, s[0]))
  }

  /** The first comma outside all brackets, or the length. */
  function FirstCut(s: string, depth: nat): (i: nat)
    ensures i <= |s| && (i < |s| ==> s[i] == ',')
  {
    if s == "" || (s[0] == ',' && depth == 0) then 0 else 1 + FirstCut(s[1..], Next(depth, s[0]))
  }

  function Pieces(s: string): (r: seq<string>)
    ensures r != []
    decreases |s|
  {
    var i := FirstCut(s, 0);
    if i == |s| then [s] else [s[..i]] + Pieces(s[i + 1..])
  }

  function TrimAll(pieces: seq<string>): (r: seq<string>)
    ensures |r| == |pieces|
  {
    seq(|pieces|, i requires 0 <= i < |pieces| => Trim(pieces[i]))
  }

  /** The pieces between top-level commas, trimmed; a blank last piece is left out. */
  function Dependencies(s: string): seq<string> {
    var items := TrimAll(Pieces(s));
    if items[|items| - 1] == "" then items[..|items| - 1] else items
  }

  lemma TrimAllOfMore(piece: string, pieces: seq<string>)
    ensures TrimAll([piece] + pieces) == [Trim(piece)] + TrimAll(pieces)
  {
    hide Trim;
  }

  lemma TrimAllLast(pieces: seq<string>)
    requires pieces != []
    ensures TrimAll(pieces)[|pieces| - 1] == Trim(pieces[|pieces| - 1])
    ensures TrimAll(pieces)[..|pieces| - 1] == TrimAll(pieces[..|pieces| - 1])
  {
    hide Trim;
  }

  lemma PiecesFromCut(s: string, piece: string, rest: string)
    requires |piece| == FirstCut(s, 0) < |s| && s[..|piece|] == piece && s[|piece| + 1..] == rest
    ensures Pieces(s) == [piece] + Pieces(rest)
  {
  }

  lemma FirstPiece(s: string, piece: string, rest: string)
    requires |piece| == FirstCut(s, 0) < |s| && s[..|piece|] == piece && s[|piece| + 1..] == rest
    ensures TrimAll(Pieces(s)) == [Trim(piece)] + TrimAll(Pieces(rest))
  {
    hide Trim, TrimAll, Pieces, FirstCut;
    PiecesFromCut(s, piece, rest);
    TrimAllOfMore(piece, Pieces(rest));
  }

  lemma LastPiece(s: string)
    requires FirstCut(s, 0) == |s|
    ensures TrimAll(Pieces(s)) == [Trim(s)]
  {
    hide Trim;
  }

  lemma CutStep(value: string, index: nat, depth: nat)
    requires index < |value|
    ensures FirstCut(value[index..], depth) ==
            if value[index] == ',' && depth == 0 then 0 else 1 + FirstCut(value[index + 1..], Next(depth, value[index]))
  {
    assert value[index..][1..] == value[index + 1..];
  }

  method Split(value: string) returns (items: seq<string>)
    ensures items == Dependencies(value)
  {
    hide Trim, Pieces, TrimAll, FirstCut;
    items := [];
    var start, depth := 0, 0;
    for index := 0 to |value|
      invariant 0 <= start <= index
      invariant TrimAll(Pieces(value)) == items + TrimAll(Pieces(value[start..]))
      invariant FirstCut(value[start..], 0) == index - start + FirstCut(value[index..], depth)
    {
      var c := value[index];
      CutStep(value, index, depth);
      if c == '[' || c == '(' {
        depth := depth + 1;
      } else if (c == ']' || c == ')') && depth > 0 {
        depth := depth - 1;
      } else if c == ',' && depth == 0 {
        var rest := value[start..];
        assert rest[..index - start] == value[start..index] && rest[index - start + 1..] == value[index + 1..];
        FirstPiece(rest, value[start..index], value[index + 1..]);
        items := items + [Trim(value[start..index])];
        start := index + 1;
      }
    }
    assert value[|value|..] == "" && FirstCut(value[|value|..], depth) == 0;
    LastPiece(value[start..]);
    if Trim(value[start..]) != "" {
      items := items + [Trim(value[start..])];
    }
  }

  // -------- Joining --------

  function JoinPieces(pieces: seq<string>): string {
    if pieces == [] then ""
    else if |pieces| == 1 then pieces[0]
    else pieces[0] + "," + JoinPieces(pieces[1..])
  }

  /** Brackets balance, and every comma is inside some. */
  predicate Whole(piece: string) {
    FirstCut(piece, 0) == |piece| && Depth(piece, 0) == 0
  }

  lemma {:induction false} CutAfter(piece: string, rest: string, depth: nat)
    requires FirstCut(piece, depth) == |piece| && Depth(piece, depth) == 0
    ensures FirstCut(piece + "," + rest, depth) == |piece|
  {
    var s := piece + "," + rest;
    if piece != "" {
      assert s[1..] == piece[1..] + "," + rest;
      CutAfter(piece[1..], rest, Next(depth, piece[0]));
    }
  }

  lemma {:induction false} PiecesOfJoin(pieces: seq<string>)
    requires pieces != [] && forall p | p in pieces :: Whole(p)
    ensures Pieces(JoinPieces(pieces)) == pieces
  {
    hide FirstCut, Depth;
    assert Whole(pieces[0]);
    if |pieces| > 1 {
      var s, piece, rest := JoinPieces(pieces), pieces[0], JoinPieces(pieces[1..]);
      CutAfter(piece, rest, 0);
      assert s == piece + "," + rest;
      hide Pieces, JoinPieces, Whole;
      assert s[..|piece|] == piece && s[|piece| + 1..] == rest;
      PiecesFromCut(s, piece, rest);
      PiecesOfJoin(pieces[1..]);
    }
  }

  /** The splitter undoes joining with commas: version ranges are never cut. Blanks around
      the pieces are dropped, and so is the last piece when it is blank. */
  lemma SplitUndoesJoin(pieces: seq<string>)
    requires pieces != [] && forall p | p in pieces :: Whole(p)
    ensures Dependencies(JoinPieces(pieces)) ==
            if Trim(pieces[|pieces| - 1]) == "" then TrimAll(pieces[..|pieces| - 1]) else TrimAll(pieces)
  {
    hide Trim, TrimAll, Pieces, Whole, JoinPieces;
    PiecesOfJoin(pieces);
    TrimAllLast(pieces);
  }

  /** So a list of trimmed items, none empty, comes back as it is. */
  lemma ItemsComeBack(items: seq<string>)
    requires forall p | p in items :: Whole(p) && Trimmed(p) && p != ""
    ensures Dependencies(JoinPieces(items)) == items
  {
    hide Trim, Pieces, Whole;
    if items == [] {
      LastPiece("");
      TrimPadded("", "", "");
      assert "" + "" + "" == "" && JoinPieces(items) == "";
    } else {
      SplitUndoesJoin(items);
      forall i | 0 <= i < |items|
        ensures Trim(items[i]) == items[i]
      {
        TrimPadded("", items[i], "");
        assert "" + items[i] + "" == items[i] && items[i] in items;
      }
      assert items[|items| - 1] in items && TrimAll(items) == items;
    }
  }

  /** The cuts lose nothing but the commas: joined again, the pieces are the whole text, and
      no piece has a comma that would have been cut. */
  lemma {:induction false} JoinUndoesPieces(s: string)
    ensures JoinPieces(Pieces(s)) == s
    ensures forall p | p in Pieces(s) :: FirstCut(p, 0) == |p|
    decreases |s|
  {
    hide FirstCut;
    var i := FirstCut(s, 0);
    var piece := s[..i];
    UpToTheCut(s, 0);
    if i < |s| {
      var rest := s[i + 1..];
      assert s == piece + "," + rest;
      PiecesFromCut(s, piece, rest);
      hide Pieces;
      JoinUndoesPieces(rest);
      assert Pieces(s)[1..] == Pieces(rest);
    } else {
      assert piece == s;
    }
  }

  lemma {:induction false} UpToTheCut(s: string, depth: nat)
    ensures var i := FirstCut(s, depth); FirstCut(s[..i], depth) == i
  {
    var i := FirstCut(s, depth);
    if i > 0 {
      assert s[..i][1..] == s[1..][..i - 1];
      UpToTheCut(s[1..], Next(depth, s[0]));
    }
  }
}
