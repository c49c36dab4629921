/** The bar floating above a vehicle that displays its energy within [0, 100]. */
module EnergyBars {

  const MINIMUM_VAL: real := 0.0
  const MAXIMUM_VAL: real := 100.0

  /** The two-comparison clamp the bar applies to every value it is given. */
  function Clamp(v: real): (r: real)
    ensures MINIMUM_VAL <= r <= MAXIMUM_VAL
    ensures MINIMUM_VAL <= v <= MAXIMUM_VAL ==> r == v
    ensures v < MINIMUM_VAL ==> r == MINIMUM_VAL
    ensures MAXIMUM_VAL < v ==> r == MAXIMUM_VAL
  {
    var v' := if v < MINIMUM_VAL then MINIMUM_VAL else v;
    if v' > MAXIMUM_VAL then MAXIMUM_VAL else v'
  }

  /** Clamping a clamped value changes nothing, so setting a value twice stores what setting
      it once does. */
  lemma ClampIdempotent(v: real)
    ensures Clamp(Clamp(v)) == Clamp(v)
  {
  }

  class EnergyBar {
    /** Upper-left corner. */
    var x: real
    var y: real
    var value: real
    const width: int := 50
    const height: int := 5

    constructor (x0: real, y0: real, v: real)
      ensures x == x0 && y == y0
      ensures value == Clamp(v)
      ensures width == 50 && height == 5
    {
      x, y := x0, y0;
      var c := v;
      if c < MINIMUM_VAL { c := MINIMUM_VAL; }
      if c > MAXIMUM_VAL { c := MAXIMUM_VAL; }
      value := c;
    }

    method SetPos(nx: real, ny: real)
      modifies this`x, this`y
      ensures x == nx && y == ny
    {
      x, y := nx, ny;
    }

    method SetValue(v: real)
      modifies this`value
      ensures value == Clamp(v)
      ensures MINIMUM_VAL <= value <= MAXIMUM_VAL
    {
      var c := v;
      if c < MINIMUM_VAL { c := MINIMUM_VAL; }
      if c > MAXIMUM_VAL { c := MAXIMUM_VAL; }
      value := c;
    }
  }
}
