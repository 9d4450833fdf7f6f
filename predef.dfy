/** `PredefUnit` (src/unit/mod.rs): named units and the exponent vectors they convert into. */
module PredefUnits {
  import opened Units

  datatype PredefUnit =
    Time
    | Length
    | Mass
    | ElectricCurrent
    | Temperature
    | AmountOfSubstance
    | LuminousIntensity
    | Area
    | Volume
    | ElectricVoltage
    | Force
    | Torque
    | Power
    | Energy
    | Frequency
    | Velocity
    | AngularVelocity
    | MagneticFlux
    | MagneticFluxDensity
    | MagneticFieldStrength
    | Inductance
    | ElectricConductance
    | ElectricResistance
    | ElectricConductivity
    | ElectricResistivity

  /** `From<PredefUnit> for Unit`. */
  function ToUnit(p: PredefUnit): Unit
  {
    match p
    case Time => Unit(1, 0, 0, 0, 0, 0, 0)
    case Length => Unit(0, 1, 0, 0, 0, 0, 0)
    case Mass => Unit(0, 0, 1, 0, 0, 0, 0)
    case ElectricCurrent => Unit(0, 0, 0, 1, 0, 0, 0)
    case Temperature => Unit(0, 0, 0, 0, 1, 0, 0)
    case AmountOfSubstance => Unit(0, 0, 0, 0, 0, 1, 0)
    case LuminousIntensity => Unit(0, 0, 0, 0, 0, 0, 1)
    case Area => Unit(0, 2, 0, 0, 0, 0, 0)
    case Volume => Unit(0, 3, 0, 0, 0, 0, 0)
    case ElectricVoltage => Unit(-3, 2, 1, -1, 0, 0, 0)
    case Force => Unit(-2, 1, 1, 0, 0, 0, 0)
    case Torque => Unit(-2, 2, 1, 0, 0, 0, 0)
    case Power => Unit(-3, 2, 1, 0, 0, 0, 0)
    case Energy => Unit(-2, 2, 1, 0, 0, 0, 0)
    case Frequency => Unit(-1, 0, 0, 0, 0, 0, 0)
    case Velocity => Unit(-1, 1, 0, 0, 0, 0, 0)
    case AngularVelocity => Unit(-1, 0, 0, 0, 0, 0, 0)
    case MagneticFlux => Unit(-2, 2, 1, -1, 0, 0, 0)
    case MagneticFluxDensity => Unit(-2, 0, 1, -1, 0, 0, 0)
    case MagneticFieldStrength => Unit(0, -1, 0, 1, 0, 0, 0)
    case Inductance => Unit(-2, 2, 1, -2, 0, 0, 0)
    case ElectricConductance => Unit(3, -2, -1, 2, 0, 0, 0)
    case ElectricResistance => Unit(-3, 2, 1, -2, 0, 0, 0)
    case ElectricConductivity => Unit(3, -3, -1, 2, 0, 0, 0)
    case ElectricResistivity => Unit(-3, 3, 1, -2, 0, 0, 0)
  }

  /**
    The table as written: voltage is s^-3 m^2 kg A^-1; conductivity (below) carries m^-3 although
    its doc comment says m^-2.
  */
  lemma VoltageEntry()
    ensures ToUnit(ElectricVoltage) == Unit(-3, 2, 1, -1, 0, 0, 0)
  {
  }

  /** Torque and energy share one vector, as do frequency and angular velocity. */
  lemma TorqueIsEnergy()
    ensures ToUnit(Torque) == ToUnit(Energy)
  {
  }

  lemma FrequencyIsAngularVelocity()
    ensures ToUnit(Frequency) == ToUnit(AngularVelocity)
  {
  }

  /** Conductivity is conductance per length; field strength is current per length. */
  lemma ConductivityPerLength()
    ensures ToUnit(ElectricConductivity) == Div(ToUnit(ElectricConductance), ToUnit(Length))
  {
    assert ToUnit(ElectricConductivity) == Unit(3, -3, -1, 2, 0, 0, 0);
    assert ToUnit(ElectricConductance) == Unit(3, -2, -1, 2, 0, 0, 0);
    assert ToUnit(Length) == Unit(0, 1, 0, 0, 0, 0, 0);
  }

  lemma FieldStrengthPerLength()
    ensures ToUnit(MagneticFieldStrength) == Div(ToUnit(ElectricCurrent), ToUnit(Length))
  {
    assert ToUnit(MagneticFieldStrength) == Unit(0, -1, 0, 1, 0, 0, 0);
    assert ToUnit(ElectricCurrent) == Unit(0, 0, 0, 1, 0, 0, 0);
    assert ToUnit(Length) == Unit(0, 1, 0, 0, 0, 0, 0);
  }

  /** Multiplying and dividing two table entries, as the tests do with current and length. */
  lemma CurrentTimesLength()
    ensures Mul(ToUnit(ElectricCurrent), ToUnit(Length)) == Unit(0, 1, 0, 1, 0, 0, 0)
  {
    assert ToUnit(ElectricCurrent) == Unit(0, 0, 0, 1, 0, 0, 0);
    assert ToUnit(Length) == Unit(0, 1, 0, 0, 0, 0, 0);
  }

  lemma CurrentPerLength()
    ensures Div(ToUnit(ElectricCurrent), ToUnit(Length)) == Unit(0, -1, 0, 1, 0, 0, 0)
  {
    assert ToUnit(ElectricCurrent) == Unit(0, 0, 0, 1, 0, 0, 0);
    assert ToUnit(Length) == Unit(0, 1, 0, 0, 0, 0, 0);
  }
}
