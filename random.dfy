/** The pseudo-random source the fuzzer reads, as a stream of draws fixed in
    advance. Every call to `rand.Intn` or `rand.Float64` consumes the next
    draw of the stream. */
module Random {

  /** One `rand.Float64()` result: its value in [0, 1) and its `%f` rendering. */
  datatype Float = Float(value: real, text: string)

  /** One draw of the generator; `Intn` reads the integer, `Float64` the float. */
  datatype Draw = Draw(n: nat, x: Float)

  /** The generator's whole output, draw by draw; it never runs dry. */
  type Rng = nat -> Draw

  /** `rand.Intn(bound)`: a value in [0, bound). */
  function Intn(d: Draw, bound: nat): (r: nat)
    requires bound > 0
    ensures r < bound
  {
    d.n % bound
  }

  /** The shape `%f` gives a float in [0, 1]: digits and a point. */
  predicate IsFloatText(t: string)
  {
    |t| > 0 && forall i :: 0 <= i < |t| ==> t[i] == '.' || '0' <= t[i] <= '9'
  }

  predicate WellFormedFloat(x: Float)
  {
    0.0 <= x.value < 1.0 && IsFloatText(x.text)
  }

  /** A generator whose floats are all in [0, 1) and rendered in `%f` shape. */
  ghost predicate WellFormedRng(rng: Rng)
  {
    forall i: nat :: WellFormedFloat(rng(i).x)
  }
}
