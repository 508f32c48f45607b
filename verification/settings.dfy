/**
 * Room-settings validation shared by `createRoom` in server.js:219-304 (bounds
 * from the configuration) and index.js:52-132 (bounds 5..100 for the grid and
 * 1..100 for the speed). Every field is checked; the room is created only if
 * all of them pass.
 */
module Settings {
  import opened Wrappers
  import opened JsValues
  import opened Capacity

  /** The fields of a `create` request as the client sent them. */
  datatype CreateData = CreateData(
    heightGrid: Value, widthGrid: Value, borderWalls: Value, generateWalls: Value,
    isPrivate: Value, speed: Value, customSpeed: Value)

  /** Inclusive bounds for the numeric fields. */
  datatype Bounds = Bounds(minGridSize: int, maxGridSize: int, minSpeed: int, maxSpeed: int)

  /** The settings a valid request yields. */
  datatype RoomSettings = RoomSettings(grid: GridSettings, speed: int, isPrivate: bool)

  /** The hard-coded bounds of index.js:62-102. */
  const LegacyBounds := Bounds(5, 100, 1, 100)

  /** `v == null || isNaN(v) || v < lo || v > hi` is false. */
  predicate PassesRange(v: Value, lo: int, hi: int) {
    !(IsNullish(v) || IsNaN(v) || ToNumber(v).value < lo || ToNumber(v).value > hi)
  }

  /** The `speed == null && speed == "custom"` test guarding the custom-speed branch. */
  predicate CustomSpeedSelected(speed: Value) {
    assert !AllDigits("custom") by { assert !IsDigit("custom"[0]); }
    IsNullish(speed) && LooselyEqualsText(speed, "custom")
  }

  /** A numeric field holding a number inside the bounds: the meaning of passing the range test. */
  predicate NumberWithin(v: Value, lo: int, hi: int) {
    v != Undefined && v != Null && ToNumber(v).Some? && lo <= ToNumber(v).value <= hi
  }

  /**
   * Validate every field; None stands for INVALID_SETTINGS. Accepted
   * values are the numbers the fields coerce to, and the truthiness of the
   * flags.
   */
  function ValidateSettings(data: CreateData, b: Bounds): (r: Option<RoomSettings>)
    ensures r.Some? <==>
              && NumberWithin(data.heightGrid, b.minGridSize, b.maxGridSize)
              && NumberWithin(data.widthGrid, b.minGridSize, b.maxGridSize)
              && data.borderWalls != Undefined && data.borderWalls != Null
              && data.generateWalls != Undefined && data.generateWalls != Null
              && data.isPrivate != Undefined && data.isPrivate != Null
              && NumberWithin(data.speed, b.minSpeed, b.maxSpeed)
    ensures r.Some? ==>
              && b.minGridSize <= r.value.grid.height <= b.maxGridSize
              && b.minGridSize <= r.value.grid.width <= b.maxGridSize
              && b.minSpeed <= r.value.speed <= b.maxSpeed
              && Some(r.value.grid.height) == ToNumber(data.heightGrid)
              && Some(r.value.grid.width) == ToNumber(data.widthGrid)
              && Some(r.value.speed) == ToNumber(data.speed)
              && r.value.grid.borderWalls == Truthy(data.borderWalls)
              && r.value.grid.generateWalls == Truthy(data.generateWalls)
              && r.value.isPrivate == Truthy(data.isPrivate)
  {
    var heightOk := PassesRange(data.heightGrid, b.minGridSize, b.maxGridSize);
    var widthOk := PassesRange(data.widthGrid, b.minGridSize, b.maxGridSize);
    var borderOk := !IsNullish(data.borderWalls);
    var wallsOk := !IsNullish(data.generateWalls);
    var privateOk := !IsNullish(data.isPrivate);
    var speedOk :=
      if CustomSpeedSelected(data.speed) then PassesRange(data.customSpeed, b.minSpeed, b.maxSpeed)
      else PassesRange(data.speed, b.minSpeed, b.maxSpeed);
    var speed :=
      if CustomSpeedSelected(data.speed) then ToNumber(data.customSpeed).GetOr(8)
      else ToNumber(data.speed).GetOr(8);
    if heightOk && widthOk && borderOk && wallsOk && privateOk && speedOk then
      Some(RoomSettings(
             GridSettings(ToNumber(data.widthGrid).value, ToNumber(data.heightGrid).value,
                          Truthy(data.borderWalls), Truthy(data.generateWalls)),
             speed, Truthy(data.isPrivate)))
    else None
  }

  /** A value cannot be both nullish and the text "custom": the custom-speed branch is dead. */
  lemma CustomSpeedBranchUnreachable(v: Value)
    ensures !CustomSpeedSelected(v)
  {
  }

  /**
   * Choosing the custom speed is always rejected, whatever custom value is
   * supplied: "custom" is not a number.
   */
  lemma CustomSpeedAlwaysRejected(data: CreateData, b: Bounds)
    requires data.speed == Str("custom")
    ensures ValidateSettings(data, b).None?
  {
    assert !IsDigit("custom"[0]);
  }

  /** A width below the minimum is rejected whatever the other fields hold. */
  lemma TooNarrowRejected(data: CreateData, b: Bounds)
    requires data.widthGrid.Num? && data.widthGrid.n < b.minGridSize
    ensures ValidateSettings(data, b).None?
  {
  }
}
