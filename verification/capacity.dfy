/**
 * `getMaxPlayers` (server.js:196-217): how many players a room's grid can
 * hold. The source computes in binary floating point with the constants
 * 0.1 and 0.1675; here they are the exact rationals 1/10 and 67/400.
 */
module Capacity {
  import opened Wrappers

  /** The geometry a room's grid was created with. */
  datatype GridSettings = GridSettings(width: int, height: int, borderWalls: bool, generateWalls: bool)

  /** `Math.round` for the non-tie-sensitive part: round half up. */
  function Round(x: real): (r: int)
    ensures x - 0.5 < r as real <= x + 0.5
  {
    (x + 0.5).Floor
  }

  /** Cells of the grid left free for snakes. */
  function FreeCells(g: GridSettings): real {
    var cells := (g.height * g.width) as real;
    var afterBorder := if g.borderWalls then cells - ((g.width + g.height) * 2 - 4) as real else cells;
    if !g.generateWalls then afterBorder
    else if g.borderWalls then afterBorder - cells * 0.1
    else afterBorder - cells * 0.1675
  }

  /**
   * One player per five free cells, rounded, at least 2 and at most the
   * configured `maxPlayers`.
   */
  function GetMaxPlayers(maxPlayers: int, g: GridSettings): (r: int)
    ensures r <= maxPlayers
    ensures maxPlayers >= 2 ==> r >= 2
    ensures r == maxPlayers || r == 2 || r as real - 0.5 <= FreeCells(g) / 5.0 < r as real + 0.5
    ensures 2 <= Round(FreeCells(g) / 5.0) <= maxPlayers ==> r == Round(FreeCells(g) / 5.0)
    ensures Round(FreeCells(g) / 5.0) > maxPlayers ==> r == maxPlayers
    ensures Round(FreeCells(g) / 5.0) < 2 ==> r == Min(maxPlayers, 2)
  {
    Min(maxPlayers, Max(Round(FreeCells(g) / 5.0), 2))
  }

  lemma RoundMonotone(x: real, y: real)
    requires x <= y
    ensures Round(x) <= Round(y)
  {
  }

  /**
   * Reserving cells for generated walls never raises the capacity, on any
   * grid with a non-negative area.
   */
  lemma GeneratedWallsNeverRaiseCapacity(maxPlayers: int, g: GridSettings)
    requires g.width >= 0 && g.height >= 0
    ensures GetMaxPlayers(maxPlayers, g.(generateWalls := true)) <= GetMaxPlayers(maxPlayers, g.(generateWalls := false))
  {
    var cells := (g.height * g.width) as real;
    assert cells >= 0.0;
    assert FreeCells(g.(generateWalls := true)) <= FreeCells(g.(generateWalls := false));
    RoundMonotone(FreeCells(g.(generateWalls := true)) / 5.0, FreeCells(g.(generateWalls := false)) / 5.0);
  }

  /**
   * Border walls never raise the capacity when no interior walls are
   * generated, on any grid at least 1 cell wide and high.
   */
  lemma BorderWallsNeverRaiseCapacity(maxPlayers: int, g: GridSettings)
    requires g.width >= 1 && g.height >= 1 && !g.generateWalls
    ensures GetMaxPlayers(maxPlayers, g.(borderWalls := true)) <= GetMaxPlayers(maxPlayers, g.(borderWalls := false))
  {
    RoundMonotone(FreeCells(g.(borderWalls := true)) / 5.0, FreeCells(g.(borderWalls := false)) / 5.0);
  }

  /** A 20x20 grid with border walls and no interior walls holds 65 players: 324 free cells. */
  lemma BorderedTwentyByTwenty(maxPlayers: int)
    ensures GetMaxPlayers(maxPlayers, GridSettings(20, 20, true, false)) == Min(maxPlayers, 65)
  {
    assert FreeCells(GridSettings(20, 20, true, false)) == 324.0;
  }
}
