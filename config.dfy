/** Validation of the run's numeric configuration, done before any grid is built. */
module Config {

  /** The three configuration errors; each aborts the run with no output. */
  datatype ConfigError =
    | NegativeTemperature
    | NegativeEnergyThreshold
    | AccessCoeffOutOfRange

  datatype Outcome = Pass | Fail(error: ConfigError)

  /** The checks run in source order, so the first violated one names the error. */
  function Validate(temperature: real, energyThreshold: real, accessCoeff: real): (r: Outcome)
    ensures r.Pass? <==> 0.0 <= temperature && 0.0 <= energyThreshold && 0.0 <= accessCoeff <= 1.0
    ensures r == Fail(NegativeTemperature) <==> temperature < 0.0
    ensures r == Fail(NegativeEnergyThreshold) <==> 0.0 <= temperature && energyThreshold < 0.0
    ensures r == Fail(AccessCoeffOutOfRange) <==>
      0.0 <= temperature && 0.0 <= energyThreshold && (accessCoeff > 1.0 || accessCoeff < 0.0)
  {
    if temperature < 0.0 then Fail(NegativeTemperature)
    else if energyThreshold < 0.0 then Fail(NegativeEnergyThreshold)
    else if accessCoeff > 1.0 || accessCoeff < 0.0 then Fail(AccessCoeffOutOfRange)
    else Pass
  }

  /** Zero temperature, zero threshold and a coefficient of exactly 0 or 1 are accepted;
      a coefficient just outside [0, 1] is not. */
  lemma BoundaryValues()
    ensures Validate(0.0, 0.0, 0.0) == Pass && Validate(0.0, 0.0, 1.0) == Pass
    ensures Validate(300.0, 40.0, -0.01) == Fail(AccessCoeffOutOfRange)
    ensures Validate(300.0, 40.0, 1.01) == Fail(AccessCoeffOutOfRange)
  {
  }
}
