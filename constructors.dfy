/** The `const fn` constructors of `UnitExponents` (src/unit_exponents_constructors.rs). */
module UnitConstructors {
  import U = Units
  import P = PredefUnits

  function Time(): U.Unit { U.Unit(1, 0, 0, 0, 0, 0, 0) }
  function Length(): U.Unit { U.Unit(0, 1, 0, 0, 0, 0, 0) }
  function Mass(): U.Unit { U.Unit(0, 0, 1, 0, 0, 0, 0) }
  function ElectricalCurrent(): U.Unit { U.Unit(0, 0, 0, 1, 0, 0, 0) }
  function Temperature(): U.Unit { U.Unit(0, 0, 0, 0, 1, 0, 0) }
  function AmountOfSubstance(): U.Unit { U.Unit(0, 0, 0, 0, 0, 1, 0) }
  function LuminousIntensity(): U.Unit { U.Unit(0, 0, 0, 0, 0, 0, 1) }
  function Area(): U.Unit { U.Unit(0, 2, 0, 0, 0, 0, 0) }
  function Volume(): U.Unit { U.Unit(0, 3, 0, 0, 0, 0, 0) }
  function ElectricalVoltage(): U.Unit { U.Unit(-3, 2, 1, -1, 0, 0, 0) }
  function Force(): U.Unit { U.Unit(-2, 1, 1, 0, 0, 0, 0) }
  function Torque(): U.Unit { U.Unit(-2, 2, 1, 0, 0, 0, 0) }
  function Power(): U.Unit { U.Unit(-3, 2, 1, 0, 0, 0, 0) }
  function Energy(): U.Unit { U.Unit(-2, 2, 1, 0, 0, 0, 0) }
  function Frequency(): U.Unit { U.Unit(-1, 0, 0, 0, 0, 0, 0) }
  function Velocity(): U.Unit { U.Unit(-1, 1, 0, 0, 0, 0, 0) }
  function AngularVelocity(): U.Unit { U.Unit(-1, 0, 0, 0, 0, 0, 0) }
  function MagneticFlux(): U.Unit { U.Unit(-2, 2, 1, -1, 0, 0, 0) }
  function MagneticFluxDensity(): U.Unit { U.Unit(-2, 0, 1, -1, 0, 0, 0) }
  function Inductance(): U.Unit { U.Unit(-2, 2, 1, -2, 0, 0, 0) }
  function ElectricalConductance(): U.Unit { U.Unit(3, -2, -1, 2, 0, 0, 0) }
  function ElectricalResistance(): U.Unit { U.Unit(-3, 2, 1, -2, 0, 0, 0) }
  function ElectricalConductivity(): U.Unit { U.Unit(3, -3, -1, 2, 0, 0, 0) }
  function ElectricalResistivity(): U.Unit { U.Unit(-3, 3, 1, -2, 0, 0, 0) }

  /** The seven base constructors are a basis: every unit is the product of their powers. */
  lemma BaseConstructorsSpan(u: U.Unit)
    ensures u == U.Mul(U.Power(Time(), u.second), U.Mul(U.Power(Length(), u.meter),
                 U.Mul(U.Power(Mass(), u.kilogram), U.Mul(U.Power(ElectricalCurrent(), u.ampere),
                 U.Mul(U.Power(Temperature(), u.kelvin), U.Mul(U.Power(AmountOfSubstance(), u.mol),
                 U.Power(LuminousIntensity(), u.candela)))))))
  {
  }

  /**
    The derived constructors agree with the physical relations between the quantities they name;
    each relation is its own lemma.
  */
  lemma AreaIsLengthSquared()
    ensures Area() == U.Mul(Length(), Length())
  {
  }

  lemma VolumeIsAreaTimesLength()
    ensures Volume() == U.Mul(Area(), Length())
  {
  }

  lemma VelocityIsLengthPerTime()
    ensures Velocity() == U.Div(Length(), Time())
  {
  }

  lemma ForceIsMassTimesAcceleration()
    ensures Force() == U.Div(U.Mul(Mass(), Length()), U.Mul(Time(), Time()))
  {
    MassTimesLength();
    TimeSquared();
    MassLengthPerTimeSquared();
  }

  lemma MassTimesLength()
    ensures U.Mul(Mass(), Length()) == U.Unit(0, 1, 1, 0, 0, 0, 0)
  {
  }

  lemma TimeSquared()
    ensures U.Mul(Time(), Time()) == U.Unit(2, 0, 0, 0, 0, 0, 0)
  {
  }

  lemma MassLengthPerTimeSquared()
    ensures U.Div(U.Unit(0, 1, 1, 0, 0, 0, 0), U.Unit(2, 0, 0, 0, 0, 0, 0)) == U.Unit(-2, 1, 1, 0, 0, 0, 0)
  {
  }

  lemma EnergyIsForceTimesLength()
    ensures Energy() == U.Mul(Force(), Length())
  {
  }

  lemma TorqueIsEnergy()
    ensures Torque() == Energy()
  {
  }

  lemma PowerIsEnergyPerTime()
    ensures Power() == U.Div(Energy(), Time())
  {
  }

  lemma FrequencyIsInverseTime()
    ensures Frequency() == U.Div(U.Dimensionless, Time())
  {
  }

  lemma AngularVelocityIsFrequency()
    ensures AngularVelocity() == Frequency()
  {
  }

  lemma VoltageIsPowerPerCurrent()
    ensures ElectricalVoltage() == U.Div(Power(), ElectricalCurrent())
  {
  }

  lemma ResistanceIsVoltagePerCurrent()
    ensures ElectricalResistance() == U.Div(ElectricalVoltage(), ElectricalCurrent())
  {
  }

  lemma ConductanceIsInverseResistance()
    ensures ElectricalConductance() == U.Div(U.Dimensionless, ElectricalResistance())
  {
  }

  lemma ResistivityIsResistanceTimesLength()
    ensures ElectricalResistivity() == U.Mul(ElectricalResistance(), Length())
  {
  }

  lemma ConductivityIsConductancePerLength()
    ensures ElectricalConductivity() == U.Div(ElectricalConductance(), Length())
  {
  }

  lemma FluxIsVoltageTimesTime()
    ensures MagneticFlux() == U.Mul(ElectricalVoltage(), Time())
  {
  }

  lemma FluxDensityIsFluxPerArea()
    ensures MagneticFluxDensity() == U.Div(MagneticFlux(), Area())
  {
  }

  lemma InductanceIsFluxPerCurrent()
    ensures Inductance() == U.Div(MagneticFlux(), ElectricalCurrent())
  {
  }

  /** The constructors and the `PredefUnit` table agree on every quantity they both name. */
  lemma AgreeWithPredefUnit()
    ensures Time() == P.ToUnit(P.Time) && Length() == P.ToUnit(P.Length)
    ensures Mass() == P.ToUnit(P.Mass) && ElectricalCurrent() == P.ToUnit(P.ElectricCurrent)
    ensures Temperature() == P.ToUnit(P.Temperature)
    ensures AmountOfSubstance() == P.ToUnit(P.AmountOfSubstance)
    ensures LuminousIntensity() == P.ToUnit(P.LuminousIntensity)
    ensures Area() == P.ToUnit(P.Area) && Volume() == P.ToUnit(P.Volume)
    ensures ElectricalVoltage() == P.ToUnit(P.ElectricVoltage) && Force() == P.ToUnit(P.Force)
    ensures Torque() == P.ToUnit(P.Torque) && Power() == P.ToUnit(P.Power)
    ensures Energy() == P.ToUnit(P.Energy) && Frequency() == P.ToUnit(P.Frequency)
    ensures Velocity() == P.ToUnit(P.Velocity) && AngularVelocity() == P.ToUnit(P.AngularVelocity)
    ensures MagneticFlux() == P.ToUnit(P.MagneticFlux)
    ensures MagneticFluxDensity() == P.ToUnit(P.MagneticFluxDensity)
    ensures Inductance() == P.ToUnit(P.Inductance)
    ensures ElectricalConductance() == P.ToUnit(P.ElectricConductance)
    ensures ElectricalResistance() == P.ToUnit(P.ElectricResistance)
    ensures ElectricalConductivity() == P.ToUnit(P.ElectricConductivity)
    ensures ElectricalResistivity() == P.ToUnit(P.ElectricResistivity)
  {
  }
}
