/**
 * Board coordinates: the notation conversions and the square-walking generator
 * of the static Utils class.  Files are the first index (0..7 for 'a'..'h'),
 * ranks the second (0..7 for 1..8).
 */
module Coordinates {

  /** Math.Sign on integers. */
  function Sign(n: int): (s: int)
    ensures -1 <= s <= 1
    ensures s == 0 <==> n == 0
    ensures s == 1 <==> n > 0
  {
    if n > 0 then 1 else if n < 0 then -1 else 0
  }

  /** Math.Abs on integers. */
  function Abs(n: int): (a: nat)
    ensures a == n || a == -n
  {
    if n < 0 then -n else n
  }

  predicate InBounds(x: int, y: int)
  {
    0 <= x <= 7 && 0 <= y <= 7
  }

  /** The largest code point below the surrogate range: `as char` in Dafny excludes surrogates. */
  const MaxPlainChar: int := 0xD7FF

  /** convertFromChessNotation: a file letter and a rank number to zero-based indices. */
  function ConvertFromChessNotation(letter: char, number: int): (r: (int, int))
    ensures InBounds(r.0, r.1) <==> 'a' <= letter <= 'h' && 1 <= number <= 8
  {
    (letter as int - 97, number - 1)
  }

  /** convertToChessNotation: zero-based indices to a file letter and a rank number. */
  function ConvertToChessNotation(letter: int, number: int): (r: (char, int))
    requires 0 <= letter + 97 <= MaxPlainChar
    ensures InBounds(letter, number) <==> 'a' <= r.0 <= 'h' && 1 <= r.1 <= 8
  {
    ((letter + 97) as char, number + 1)
  }

  /** Converting indices to notation and back gives the indices again. */
  lemma IndicesRoundTrip(letter: int, number: int)
    requires 0 <= letter + 97 <= MaxPlainChar
    ensures var (c, n) := ConvertToChessNotation(letter, number);
            ConvertFromChessNotation(c, n) == (letter, number)
  {
  }

  /** Converting notation to indices and back gives the notation again. */
  lemma NotationRoundTrip(letter: char, number: int)
    requires letter as int <= MaxPlainChar
    ensures var (l, n) := ConvertFromChessNotation(letter, number);
            0 <= l + 97 <= MaxPlainChar && ConvertToChessNotation(l, n) == (letter, number)
  {
  }

  /** Two squares on a common rank, file or diagonal (the only inputs the generator terminates on). */
  predicate Aligned(x0: int, y0: int, x1: int, y1: int)
  {
    x0 == x1 || y0 == y1 || Abs(x1 - x0) == Abs(y1 - y0)
  }

  /** Chebyshev distance: the number of king steps between two squares. */
  function Dist(x0: int, y0: int, x1: int, y1: int): nat
  {
    if Abs(x1 - x0) < Abs(y1 - y0) then Abs(y1 - y0) else Abs(x1 - x0)
  }

  /** The coordinate reached after k steps of direction s (s in -1..1) from v. */
  function Walk(v: int, s: int, k: int): int
  {
    if s == 1 then v + k else if s == -1 then v - k else v
  }

  /**
   * The generator's state: the current square (xv, yv) has either reached the end
   * (x1, y1), or the fixed step (xs, ys) still points along a line straight at it.
   */
  predicate Heading(xv: int, yv: int, xs: int, ys: int, x1: int, y1: int)
  {
    (xv == x1 && yv == y1) ||
    (xs == Sign(x1 - xv) && ys == Sign(y1 - yv) && Aligned(xv, yv, x1, y1))
  }

  /** v lies in the closed interval spanned by a and b. */
  predicate Within(v: int, a: int, b: int)
  {
    (a <= v <= b) || (b <= v <= a)
  }

  /** A point between b and c, where b itself lies between a and c, lies between a and c. */
  lemma WithinWider(v: int, a: int, b: int, c: int)
    requires Within(v, b, c) && Within(b, a, c)
    ensures Within(v, a, c)
  {
  }

  /**
   * What the generator still yields from the current square (xv, yv):
   * every square up to, but not including, (x1, y1).
   */
  function Steps(xv: int, yv: int, xs: int, ys: int, x1: int, y1: int): (r: seq<(int, int)>)
    requires Heading(xv, yv, xs, ys, x1, y1)
    ensures |r| == Dist(xv, yv, x1, y1)
    decreases Dist(xv, yv, x1, y1)
  {
    if xv == x1 && yv == y1 then []
    else
      HeadingStep(xv, yv, xs, ys, x1, y1);
      [(xv, yv)] + Steps(xv + xs, yv + ys, xs, ys, x1, y1)
  }

  /** One step of the generator keeps heading for the end and comes one square closer. */
  lemma HeadingStep(xv: int, yv: int, xs: int, ys: int, x1: int, y1: int)
    requires Heading(xv, yv, xs, ys, x1, y1) && (xv != x1 || yv != y1)
    ensures Heading(xv + xs, yv + ys, xs, ys, x1, y1)
    ensures Dist(xv + xs, yv + ys, x1, y1) == Dist(xv, yv, x1, y1) - 1
    ensures Within(xv + xs, xv, x1) && Within(yv + ys, yv, y1)
  {
  }

  /** Away from the end, the generator yields the current square and then continues one step further on. */
  lemma StepsUnfold(xv: int, yv: int, xs: int, ys: int, x1: int, y1: int)
    requires Heading(xv, yv, xs, ys, x1, y1) && (xv != x1 || yv != y1)
    ensures Heading(xv + xs, yv + ys, xs, ys, x1, y1)
    ensures Dist(xv + xs, yv + ys, x1, y1) < Dist(xv, yv, x1, y1)
    ensures Steps(xv, yv, xs, ys, x1, y1) == [(xv, yv)] + Steps(xv + xs, yv + ys, xs, ys, x1, y1)
  {
    HeadingStep(xv, yv, xs, ys, x1, y1);
  }

  /** The k-th square the generator yields from (xv, yv) is k steps further on. */
  lemma {:induction false} StepsAt(xv: int, yv: int, xs: int, ys: int, x1: int, y1: int, k: int)
    requires Heading(xv, yv, xs, ys, x1, y1) && 0 <= k < Dist(xv, yv, x1, y1)
    ensures Steps(xv, yv, xs, ys, x1, y1)[k] == (Walk(xv, xs, k), Walk(yv, ys, k))
    decreases k
  {
    StepsUnfold(xv, yv, xs, ys, x1, y1);
    if k > 0 {
      StepsAt(xv + xs, yv + ys, xs, ys, x1, y1, k - 1);
      assert Walk(xv + xs, xs, k - 1) == Walk(xv, xs, k);
      assert Walk(yv + ys, ys, k - 1) == Walk(yv, ys, k);
    }
  }

  /** Every square the generator still yields lies between the current square and the end, and is not the end. */
  lemma {:induction false} StepsBetween(xv: int, yv: int, xs: int, ys: int, x1: int, y1: int)
    requires Heading(xv, yv, xs, ys, x1, y1)
    ensures forall sq :: sq in Steps(xv, yv, xs, ys, x1, y1) ==>
              Within(sq.0, xv, x1) && Within(sq.1, yv, y1) && sq != (x1, y1)
    decreases Dist(xv, yv, x1, y1)
  {
    if xv != x1 || yv != y1 {
      StepsUnfold(xv, yv, xs, ys, x1, y1);
      HeadingStep(xv, yv, xs, ys, x1, y1);
      StepsBetween(xv + xs, yv + ys, xs, ys, x1, y1);
      BetweenCons(xv, yv, xv + xs, yv + ys, x1, y1, Steps(xv + xs, yv + ys, xs, ys, x1, y1));
    }
  }

  /** Putting a square before squares that lie between its successor and the end keeps them all between it and the end. */
  lemma BetweenCons(xv: int, yv: int, xn: int, yn: int, x1: int, y1: int, rest: seq<(int, int)>)
    requires Within(xn, xv, x1) && Within(yn, yv, y1) && (xv, yv) != (x1, y1)
    requires forall sq :: sq in rest ==> Within(sq.0, xn, x1) && Within(sq.1, yn, y1) && sq != (x1, y1)
    ensures forall sq :: sq in [(xv, yv)] + rest ==> Within(sq.0, xv, x1) && Within(sq.1, yv, y1) && sq != (x1, y1)
  {
    forall sq | sq in [(xv, yv)] + rest
      ensures Within(sq.0, xv, x1) && Within(sq.1, yv, y1) && sq != (x1, y1)
    {
      if sq != (xv, yv) {
        assert sq in rest;
        WithinWider(sq.0, xv, xn, x1);
        WithinWider(sq.1, yv, yn, y1);
      }
    }
  }

  /**
   * squaresBetween: the squares strictly between two aligned squares, in order
   * from the start towards the end.
   */
  function SquaresBetween(x0: int, y0: int, x1: int, y1: int): (r: seq<(int, int)>)
    requires Aligned(x0, y0, x1, y1)
  {
    var xs, ys := Sign(x1 - x0), Sign(y1 - y0);
    Steps(x0 + xs, y0 + ys, xs, ys, x1, y1)
  }

  /** The generator yields max(|dx|, |dy|) - 1 squares between two distinct aligned squares. */
  lemma SquaresBetweenLength(x0: int, y0: int, x1: int, y1: int)
    requires Aligned(x0, y0, x1, y1)
    ensures |SquaresBetween(x0, y0, x1, y1)| ==
            (if x0 == x1 && y0 == y1 then 0 else Dist(x0, y0, x1, y1) - 1)
  {
    if x0 != x1 || y0 != y1 {
      HeadingStep(x0, y0, Sign(x1 - x0), Sign(y1 - y0), x1, y1);
    }
  }

  /**
   * The k-th square the generator yields is k + 1 steps from the start towards the end;
   * it is neither endpoint and lies between them.
   */
  lemma SquaresBetweenAt(x0: int, y0: int, x1: int, y1: int, k: int)
    requires Aligned(x0, y0, x1, y1) && 0 <= k < |SquaresBetween(x0, y0, x1, y1)|
    ensures var sq := SquaresBetween(x0, y0, x1, y1)[k];
            && sq == (Walk(x0, Sign(x1 - x0), k + 1), Walk(y0, Sign(y1 - y0), k + 1))
            && sq != (x0, y0) && sq != (x1, y1)
            && Within(sq.0, x0, x1) && Within(sq.1, y0, y1)
  {
    var xs, ys := Sign(x1 - x0), Sign(y1 - y0);
    var r := SquaresBetween(x0, y0, x1, y1);
    assert x0 != x1 || y0 != y1;
    HeadingStep(x0, y0, xs, ys, x1, y1);
    StepsBetween(x0 + xs, y0 + ys, xs, ys, x1, y1);
    var sq := r[k];
    assert sq in r;
    assert Within(sq.0, x0 + xs, x1) && Within(sq.1, y0 + ys, y1) && sq != (x1, y1);
    StepsAt(x0 + xs, y0 + ys, xs, ys, x1, y1, k);
    assert Walk(x0 + xs, xs, k) == Walk(x0, xs, k + 1);
    assert Walk(y0 + ys, ys, k) == Walk(y0, ys, k + 1);
  }

  /** Squares strictly between two in-bounds squares are themselves in bounds. */
  lemma SquaresBetweenInBounds(x0: int, y0: int, x1: int, y1: int)
    requires Aligned(x0, y0, x1, y1) && InBounds(x0, y0) && InBounds(x1, y1)
    ensures forall sq :: sq in SquaresBetween(x0, y0, x1, y1) ==> InBounds(sq.0, sq.1)
  {
    var r := SquaresBetween(x0, y0, x1, y1);
    forall sq | sq in r
      ensures InBounds(sq.0, sq.1)
    {
      var k :| 0 <= k < |r| && r[k] == sq;
      SquaresBetweenAt(x0, y0, x1, y1, k);
    }
  }
}
