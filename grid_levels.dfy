/** The buy/sell levels of the grid bot: `upperLevelsCount + downLevelsCount + 1`
    prices, evenly spaced by `interLevelsDelta`, computed in closed form from the
    lowest level rather than by repeated addition. Prices are exact reals. */
module GridLevels {

  /** The lowest level: the central price moved down by `down` steps. */
  function MinLevelPrice(centralPrice: real, interLevelsDelta: real, downLevelsCount: nat): real
  {
    centralPrice - interLevelsDelta * downLevelsCount as real
  }

  /** The level at position `index`, counted from the lowest one. */
  function LevelAt(centralPrice: real, interLevelsDelta: real, downLevelsCount: nat, index: int): real
  {
    MinLevelPrice(centralPrice, interLevelsDelta, downLevelsCount) + index as real * interLevelsDelta
  }

  function TotalLevels(upperLevelsCount: nat, downLevelsCount: nat): nat
  {
    upperLevelsCount + downLevelsCount + 1
  }

  /** The whole grid as a value: what `CreateGridLevels` leaves in its array. */
  function Grid(centralPrice: real, interLevelsDelta: real, upperLevelsCount: nat, downLevelsCount: nat): seq<real>
  {
    seq(TotalLevels(upperLevelsCount, downLevelsCount),
        index => LevelAt(centralPrice, interLevelsDelta, downLevelsCount, index))
  }

  /** Allocates a zero-filled array of `upper + down + 1` slots and then
      overwrites every slot with its level. */
  method CreateGridLevels(centralPrice: real, interLevelsDelta: real, upperLevelsCount: nat, downLevelsCount: nat)
    returns (levels: array<real>)
    ensures fresh(levels)
    ensures levels.Length == upperLevelsCount + downLevelsCount + 1
    ensures forall index :: 0 <= index < levels.Length ==>
              levels[index] == (centralPrice - interLevelsDelta * downLevelsCount as real) + index as real * interLevelsDelta
    ensures levels[..] == Grid(centralPrice, interLevelsDelta, upperLevelsCount, downLevelsCount)
  {
    var totalLevels := upperLevelsCount + downLevelsCount + 1;
    var minLevelPrice := centralPrice - interLevelsDelta * downLevelsCount as real;
    levels := new real[totalLevels](_ => 0.0);
    var index := 0;
    while index < levels.Length
      invariant 0 <= index <= levels.Length
      invariant forall k :: 0 <= k < index ==>
                  levels[k] == LevelAt(centralPrice, interLevelsDelta, downLevelsCount, k)
    {
      var level := minLevelPrice + index as real * interLevelsDelta;
      assert level == LevelAt(centralPrice, interLevelsDelta, downLevelsCount, index);
      levels[index] := level;
      index := index + 1;
    }
  }

  /** The first level is the central price minus `down` deltas, the last one the
      central price plus `upper` deltas, and the central price itself sits at
      position `down`. */
  lemma GridEndpoints(centralPrice: real, interLevelsDelta: real, upperLevelsCount: nat, downLevelsCount: nat)
    ensures var levels := Grid(centralPrice, interLevelsDelta, upperLevelsCount, downLevelsCount);
      |levels| == upperLevelsCount + downLevelsCount + 1 &&
      levels[0] == centralPrice - interLevelsDelta * downLevelsCount as real &&
      levels[|levels| - 1] == centralPrice + interLevelsDelta * upperLevelsCount as real &&
      levels[downLevelsCount] == centralPrice
  {
  }

  /** Consecutive levels differ by exactly `interLevelsDelta`. */
  lemma GridSpacing(centralPrice: real, interLevelsDelta: real, upperLevelsCount: nat, downLevelsCount: nat)
    ensures var levels := Grid(centralPrice, interLevelsDelta, upperLevelsCount, downLevelsCount);
      forall index :: 0 <= index < |levels| - 1 ==> levels[index + 1] - levels[index] == interLevelsDelta
  {
  }

  /** More generally, levels `i < j` are `j - i` deltas apart. */
  lemma GridDistance(centralPrice: real, interLevelsDelta: real, upperLevelsCount: nat, downLevelsCount: nat, i: nat, j: nat)
    requires i <= j < TotalLevels(upperLevelsCount, downLevelsCount)
    ensures var levels := Grid(centralPrice, interLevelsDelta, upperLevelsCount, downLevelsCount);
      levels[j] - levels[i] == (j - i) as real * interLevelsDelta
  {
  }

  /** With a positive delta the grid is strictly increasing. */
  lemma GridStrictlyIncreasing(centralPrice: real, interLevelsDelta: real, upperLevelsCount: nat, downLevelsCount: nat)
    requires interLevelsDelta > 0.0
    ensures var levels := Grid(centralPrice, interLevelsDelta, upperLevelsCount, downLevelsCount);
      forall i, j :: 0 <= i < j < |levels| ==> levels[i] < levels[j]
  {
  }

  /** The two values shown as the grid's maximum and minimum (the last and the
      first element) bound every level when the delta is not negative. */
  lemma ShownBoundsAreExtremes(centralPrice: real, interLevelsDelta: real, upperLevelsCount: nat, downLevelsCount: nat)
    requires interLevelsDelta >= 0.0
    ensures var levels := Grid(centralPrice, interLevelsDelta, upperLevelsCount, downLevelsCount);
      forall index :: 0 <= index < |levels| ==> levels[0] <= levels[index] <= levels[|levels| - 1]
  {
    var levels := Grid(centralPrice, interLevelsDelta, upperLevelsCount, downLevelsCount);
    forall index | 0 <= index < |levels| ensures levels[0] <= levels[index] <= levels[|levels| - 1] {
      GridDistance(centralPrice, interLevelsDelta, upperLevelsCount, downLevelsCount, 0, index);
      GridDistance(centralPrice, interLevelsDelta, upperLevelsCount, downLevelsCount, index, |levels| - 1);
      NonNegativeProduct(index as real, interLevelsDelta);
      NonNegativeProduct((|levels| - 1 - index) as real, interLevelsDelta);
    }
  }

  lemma NonNegativeProduct(a: real, b: real)
    requires a >= 0.0 && b >= 0.0
    ensures a * b >= 0.0
  {
  }

  /** Nothing guards against a zero delta: then every level is the central price. */
  lemma ZeroDeltaCollapses(centralPrice: real, upperLevelsCount: nat, downLevelsCount: nat)
    ensures var levels := Grid(centralPrice, 0.0, upperLevelsCount, downLevelsCount);
      forall index :: 0 <= index < |levels| ==> levels[index] == centralPrice
  {
  }

  /** The grid of the configuration template: 20 levels above and below 29000,
      200 apart, from 25000 to 33000. */
  lemma TemplateGrid()
    ensures var levels := Grid(29000.0, 200.0, 20, 20);
      |levels| == 41 && levels[0] == 25000.0 && levels[20] == 29000.0 && levels[40] == 33000.0
  {
  }
}
