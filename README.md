# dyn_quantity in Dafny

A model of the core of the Rust crate `dyn_quantity`. It covers four parts.

- **Unit exponents.** A `Unit` is a vector of seven integer exponents of the SI base units (second, meter, kilogram, ampere, kelvin, mol, candela). The model covers:
  - component-wise `*` and `/`;
  - `powi`;
  - the `n`th root, which can fail;
  - conversion to and from a `[i32; 7]`;
  - `Display`;
  - the `PredefUnit` table;
  - the `const fn` constructors of derived units.
- **`DynQuantity`.** A complex magnitude together with its unit. The model covers:
  - addition and subtraction, which fail unless the units agree;
  - multiplication and division;
  - scalar multiplication and division;
  - `powi` and `try_nthroot`;
  - narrowing a complex quantity to a real one;
  - conversion of a dimensionless quantity to a plain number;
  - `to_vec` and `to_vec_checked`;
  - the unit suffix that `Display` writes.
- **Lexer callbacks.** These compute the payloads of the lexer's tokens:
  - the SI prefix table, `has_prefix`, `parse_exponent` and `parse_exponents_and_prefix`;
  - the candidate loops for π, degree and radians;
  - `parse_imag`;
  - the power-of-ten callbacks.
- **Evaluator.** `from_str_complexf64` runs over a token stream. Its loop state is:
  - the active quantity;
  - the stack of pending `Add`, `Mul` and `Div` operations;
  - the bracket level;
  - the previous operator;
  - the pending-division flag.

  The token loop, the division check after each token, the closing-bracket reduction and the fold at the end of the input come in two forms:
  - functions (`Evaluator.ProcessToken`, `Step`, `Run`, `Close`, `Fold`, `Finish`, `Evaluate`);
  - methods with loops (`Evaluator.FromStrComplex` and the methods it calls). These are proved equal to the functions.

  `FromStr` for real quantities narrows the result.

On the evaluator, the model proves the following:
- A stack invariant: the stack holds at least as many `Mul` and `Div` entries as there are open brackets, plus one for a pending division. It has two consequences:
  - the "division without stack item" branch cannot be reached;
  - a closing bracket always finds an opener: it stops at the topmost `Mul` or `Div` entry, which need not be the one its own `(` pushed.
- That the bracket level counts brackets.
- The error rules, each with the location it reports.
- How unit tokens change the exponents.
- Worked examples from the crate's documentation and tests.

**Magnitudes.** Magnitudes are exact complex numbers over `real`.
- π is the exact real 3.141592653589793, the decimal value of `f64::consts::PI`.
- Unit exponents are unbounded integers.

**Where code and documentation disagree, the model follows the code.**
- `%` multiplies by 1e-2. The syntax documentation (src/from_str.rs:117) calls it `*1e2`.
- A Celsius token adds 273.15 to the power of its exponent. The comment beside it (src/from_str/from_str_impl.rs:404) speaks of subtracting it.
- `PredefUnit::ElectricConductivity` is s^3 m^-3 kg^-1 A^2, that is conductance per length. Its doc comment says m^-2.

**Behaviour of the code as written, proved as examples:**
- A trailing `+` leaves the sign placeholder 1 active, so "a +" is a + 1.
- A trailing `/` is dropped.
- Adjacent numbers multiply.
- A sign after `*` starts a new summand, so "a * -b" is a + (-b). The comment in the `+` branch suggests that "*+1" is meant as a factor.
- A sign between `/` and a bracket ends the pending division, so "a / -(b) + c" is a / c - b.
- A sign between `/` and `)` keeps the division pending, so in "(a / -)" the `)` pops the `Div` entry of a instead of the bracket's `Mul` entry. That entry stays on the stack after its bracket is closed, and the text is a / (-1) · 1 = -a.
- `*` or `/` right after `(` fails like one at the start of the input ("(*3)"), and an empty pair of brackets "()" fails with `UnbalancedBrackets` at the `)`.

**Which source file each module follows.**
- src/lib.rs holds an older twin of the unit and quantity types: `UnitExponents` and `UnitsOfSummandsNotIdentical`. They have the same algebra, so one Dafny datatype serves both generations. Their error messages differ. The evaluator imports the src/lib.rs types, so a parse reason for unequal summands prints `SummandsMessage` ("first summand has exponents …"). `UnitsNotEqualMessage` ("unit … not equal to unit …") is the message of the newer `UnitsNotEqual` of src/error.rs.
- src/from_str.rs repeats the evaluator of src/from_str/from_str_impl.rs line for line. The model cites the latter.

**Return values.** The Rust methods that change `self` (`mul_assign`, `try_add_assign`, …) are methods here that return the updated value. `try_add_assign` returns the updated value together with the result.

## Model

| member | source | states |
|---|---|---|
| Numerals.ParseI32 | dyn_quantity_lexer/src/lib.rs:268-280 | an exponent read from text is within the 32-bit range |
| Numerals.ParseI32OfIntToString | dyn_quantity_lexer/src/lib.rs:268-280 | every 32-bit integer written in decimal reads back as itself |
| Numerals.IntToStringInjective | src/unit/mod.rs:195-209 | distinct exponents are written as distinct decimal texts |
| Units.Root | src/unit/mod.rs:161-181 | a successful root raised to the `n`th power gives the unit back; a failure carries `n` and the original unit |
| Units.MulAssign | src/unit/mod.rs:220-230 | the updated unit is the product: each exponent of `rhs` is added to the matching exponent of `self` |
| Units.DivAssign | src/unit/mod.rs:241-251 | the updated unit is the quotient: each exponent of `rhs` is subtracted from the matching exponent of `self` |
| Units.Powi | src/unit/mod.rs:132-141 | the seven exponents are each multiplied by `n` (straight-line field updates), giving the `n`th power `Power(u, n)` |
| Units.TryNthRoot | src/unit/mod.rs:161-181 | succeeds iff every exponent is divisible by `n`; then the result to the `n`th power is the input; otherwise the error holds `n` and the input |
| Units.GroupLaws | src/unit/mod.rs:211-251 | `Mul` and `Div`, the `*` and `/` of units: multiplication is commutative and associative with the dimensionless unit as neutral element; division undoes multiplication |
| Units.PowerLaws | src/unit/mod.rs:132-141 | `Power`, the exponent scaling of `powi`: powers distribute over products, add in the exponent, multiply when nested, and the powers 1, 0 and -1 are the unit, dimensionless and the inverse |
| Units.RootOfPower | src/unit/mod.rs:148-181 | the `n`th root of the `n`th power of a unit is that unit, for n ≠ 0 |
| Units.RootSucceedsIffPower | src/unit/mod.rs:148-181 | the root succeeds exactly on the units that are `n`th powers |
| Units.DimensionlessIsDefault | src/unit/mod.rs:183-192 | `IsDimensionless` (`is_dimensionless`) holds iff the unit equals the default (all-zero) unit |
| Units.ArrayRoundTrip | src/unit/mod.rs:67-117 | `FromArray` and `ToArray`, the conversions from and into `[i32; 7]`, are mutual inverses, in the order s, m, kg, A, K, mol, cd |
| Units.DisplayInjective | src/unit/mod.rs:195-209 | `Display` writes different units as different texts |
| Units.DisplayAvoids | src/unit/mod.rs:195-209 | the display uses only digits, `-`, `^`, spaces and the seven symbols |
| PredefUnits.VoltageEntry | src/unit/mod.rs:450-458 | the voltage entry is s^-3 m^2 kg A^-1 |
| PredefUnits.TorqueIsEnergy | src/unit/mod.rs:468-494 | torque and energy have the same vector |
| PredefUnits.FrequencyIsAngularVelocity | src/unit/mod.rs:495-521 | frequency and angular velocity have the same vector |
| PredefUnits.ConductivityPerLength | src/unit/mod.rs:558-584 | conductivity as written is conductance per length (m^-3) |
| PredefUnits.FieldStrengthPerLength | src/unit/mod.rs:540-548 | field strength is current per length |
| PredefUnits.CurrentTimesLength | tests/unit.rs:4-23 | current times length is A m |
| PredefUnits.CurrentPerLength | tests/unit.rs:4-23 | current per length is A m^-1 |
| UnitConstructors.BaseConstructorsSpan | src/unit_exponents_constructors.rs:7-107 | every unit is the product of the powers of the seven base constructors by its own exponents, so each base constructor has a single 1 in its own slot |
| UnitConstructors.AreaIsLengthSquared | src/unit_exponents_constructors.rs:112-122 | area is length times length |
| UnitConstructors.VolumeIsAreaTimesLength | src/unit_exponents_constructors.rs:127-137 | volume is area times length |
| UnitConstructors.VelocityIsLengthPerTime | src/unit_exponents_constructors.rs:232-242 | velocity is length per time |
| UnitConstructors.ForceIsMassTimesAcceleration | src/unit_exponents_constructors.rs:157-167 | force is mass times length per time squared |
| UnitConstructors.EnergyIsForceTimesLength | src/unit_exponents_constructors.rs:202-212 | energy is force times length |
| UnitConstructors.TorqueIsEnergy | src/unit_exponents_constructors.rs:172-182 | torque returns the energy vector |
| UnitConstructors.PowerIsEnergyPerTime | src/unit_exponents_constructors.rs:187-197 | power is energy per time |
| UnitConstructors.FrequencyIsInverseTime | src/unit_exponents_constructors.rs:217-227 | frequency is the inverse of time |
| UnitConstructors.AngularVelocityIsFrequency | src/unit_exponents_constructors.rs:247-257 | angular velocity returns the frequency vector |
| UnitConstructors.VoltageIsPowerPerCurrent | src/unit_exponents_constructors.rs:142-152 | voltage is power per current |
| UnitConstructors.ResistanceIsVoltagePerCurrent | src/unit_exponents_constructors.rs:322-332 | resistance is voltage per current |
| UnitConstructors.ConductanceIsInverseResistance | src/unit_exponents_constructors.rs:307-317 | conductance is the inverse of resistance |
| UnitConstructors.ResistivityIsResistanceTimesLength | src/unit_exponents_constructors.rs:352-362 | resistivity is resistance times length |
| UnitConstructors.ConductivityIsConductancePerLength | src/unit_exponents_constructors.rs:337-347 | conductivity is conductance per length |
| UnitConstructors.FluxIsVoltageTimesTime | src/unit_exponents_constructors.rs:262-272 | magnetic flux is voltage times time |
| UnitConstructors.FluxDensityIsFluxPerArea | src/unit_exponents_constructors.rs:277-287 | flux density is flux per area |
| UnitConstructors.InductanceIsFluxPerCurrent | src/unit_exponents_constructors.rs:292-302 | inductance is flux per current |
| UnitConstructors.AgreeWithPredefUnit | src/unit/mod.rs:366-596 | each constructor function returns the vector that `PredefUnits.ToUnit` gives the `PredefUnit` entry of the same name |
| ComplexNumbers.RealPowiAgrees | src/from_str/from_str_impl.rs:347-356 | the complex integer power of a real number is its real integer power |
| ComplexNumbers.ImaginaryUnitSquared | src/from_str.rs:198-211 | the arithmetic behind the example: (2i)^2 is the real number -4 |
| ComplexNumbers.RealClosedMul | src/quantity/mod.rs:478-501 | the complex product of two reals is their real product |
| ComplexNumbers.RealClosedDiv | src/quantity/mod.rs:509-544 | the complex quotient of two reals is their real quotient (0 for a zero divisor) |
| ComplexNumbers.DivUndoesMul | src/quantity/mod.rs:478-544 | dividing a product by a divisor of non-zero norm gives the other factor back |
| ComplexNumbers.SubUndoesAdd | src/quantity/mod.rs:280-383 | subtracting a summand undoes adding it |
| ComplexNumbers.ScaleIsMul | src/quantity/mod.rs:487-507 | scaling by a real number is multiplying by it as a complex number |
| ComplexNumbers.PositivePower | src/from_str/from_str_impl.rs:357-525 | an integer power of a positive real, such as `10.0.powi(e)`, is positive |
| ComplexNumbers.ScaleByPositive | src/from_str/from_str_impl.rs:357-525 | scaling by a positive real keeps a real number real and zero exactly zero |
| Errors.DefaultReason | src/error.rs:91-125 | the default parse error reason is `CouldNotParse`, a reason without payload |
| Errors.DefaultParseError | src/error.rs:62-77 | the default parse error has an empty substring, the span 0..0 and the default reason |
| Errors.ReasonFromUnitsNotEqual | src/lib.rs:931-935 | converting a summand mismatch wraps the same pair of units |
| Errors.CustomError | src/error.rs:222-227 | a custom conversion error keeps its message |
| Errors.FixedReasonFromMessage | src/error.rs:127-158 | `ReasonMessage`: the length of its message identifies every reason without payload |
| Errors.FixedMessagesDistinct | src/error.rs:127-158 | reasons without payload have pairwise distinct messages |
| Errors.ReasonFromUnitsNotEqualMessage | src/lib.rs:922 | the wrapped summand mismatch displays as the mismatch itself, "first summand has exponents {a}, but second summand has exponents {b}" |
| Errors.SummandsMessageInjective | src/lib.rs:785-794 | "first summand has exponents {a}, but second summand has exponents {b}" determines both units |
| Errors.MismatchMessagesDiffer | src/lib.rs:785-794 | the evaluator's summand message never equals the "unit {a} not equal to unit {b}" message of src/error.rs |
| Errors.RootErrorMessageInjective | src/error.rs:46-54 | "not possible to calculate the {n}th root (exponents {u} cannot be divided by {n} without remainder)" determines `n` and the unit |
| Errors.UnitsNotEqualMessageInjective | src/error.rs:22-28 | `UnitsNotEqualMessage`, "unit {a} not equal to unit {b}", determines both units |
| Errors.UnitMismatchMessageInjective | src/error.rs:229-241 | `ConversionErrorMessage` of a unit mismatch, "expected {e}, found {f}", determines both units |
| Errors.ParseErrorMessageSplits | src/error.rs:79-83 | `ParseErrorMessage`, "could not parse {substring}: {reason}", determines the substring and the reason's message when the substring has no colon |
| Errors.NotConvertibleMessageEndsWithTarget | src/error.rs:178-193 | `NotConvertibleMessage`, the narrowing error's message, ends with the target type name |
| Quantities.TryAdd | src/quantity/mod.rs:280-284 | succeeds iff the units are equal, then adds the values and keeps the unit; otherwise the error holds (self unit, other unit) |
| Quantities.TrySub | src/quantity/mod.rs:346-350 | the same rule with subtraction |
| Quantities.TryAddAssign | src/quantity/mod.rs:295-317 | on equal units the updated quantity is the sum; on a mismatch `self` is unchanged and the error holds both units |
| Quantities.TrySubAssign | src/quantity/mod.rs:376-383 | the same rule with subtraction |
| Quantities.TryAddSymmetric | src/quantity/mod.rs:280-317 | addition succeeds in both orders or in neither, with the same sum; the errors swap the units |
| Quantities.TrySubUndoesTryAdd | src/quantity/mod.rs:280-383 | subtracting an added summand gives the original quantity |
| Quantities.MulAssign | src/quantity/mod.rs:478-501 | the updated quantity is `Mul`, the product of values and of units |
| Quantities.DivAssign | src/quantity/mod.rs:509-544 | the updated quantity is `Div`, the quotient of values and of units |
| Quantities.MulScalar | src/quantity/mod.rs:487-507 | multiplying by a number keeps the unit and equals multiplying by a dimensionless quantity |
| Quantities.DivScalar | src/quantity/mod.rs:518-560 | dividing by a number keeps the unit |
| Quantities.MulScalarUndoesDivScalar | src/quantity/mod.rs:487-560 | multiplying by a non-zero number undoes dividing by it |
| Quantities.DivUndoesMul | src/quantity/mod.rs:478-525 | `Div` after `Mul`: dividing a product by a factor with non-zero value gives the other factor back, value and unit |
| Quantities.Powi | src/quantity/mod.rs:399-403 | the unit of the power is the unit's `n`th power |
| Quantities.PowiOfReal | src/quantity/mod.rs:399-403 | the power of a real quantity has the real power as its value |
| Quantities.PowiExample | src/quantity/mod.rs:388-398 | "2 A^2" to the third power is 8 A^6 |
| Quantities.TryNthRoot | src/quantity/mod.rs:408-412 | succeeds iff the unit has an `n`th root; the root unit to the `n`th power is the unit; the error holds `n` and the unit, decided before the value is touched |
| Quantities.RootOfPowi | src/quantity/mod.rs:399-412 | the `n`th root of an `n`th power succeeds and restores the unit |
| Quantities.RealClosed | src/quantity/mod.rs:478-560 | products, quotients, scalar operations, powers, sums and differences of real quantities are real |
| Quantities.RealFromComplex | src/lib.rs:92-102 | narrowing a complex number succeeds iff its imaginary part is 0; otherwise the error holds the number and "f64" |
| Quantities.Narrow | src/quantity/mod.rs:562-575 | narrowing a quantity succeeds iff its value is real, keeps value and unit, and otherwise fails with the value |
| Quantities.FromReal | src/quantity/mod.rs:577-581 | a number becomes a dimensionless quantity |
| Quantities.FromComplex | src/quantity/mod.rs:583-587 | a complex number becomes a dimensionless quantity |
| Quantities.ToReal | src/quantity/mod.rs:589-603 | conversion to a number succeeds iff the quantity is dimensionless, giving back the number, and fails with (dimensionless, unit) |
| Quantities.ToComplex | src/quantity/mod.rs:605-619 | the same for complex numbers |
| Quantities.NumberRoundTrips | src/quantity/mod.rs:577-619 | converting a number to a quantity and back gives the number |
| Quantities.ToVec | src/quantity/mod.rs:628-636 | the values, in order, one per quantity |
| Quantities.ToVecChecked | src/quantity/mod.rs:642-655 | succeeds iff all units equal the first one, with the values in order; otherwise fails with the first unit and the unit of the first element that differs |
| Quantities.SpacesInPart | src/lib.rs:427-476 | one suffix part has a leading space exactly when its exponent is non-zero |
| Quantities.SuffixListsNonzeroExponents | src/lib.rs:427-476 | `UnitSuffix` holds exactly as many spaces as the unit has non-zero exponents (with `SpacesInPart`: one for each part written) |
| Quantities.SuffixEmptyIffDimensionless | src/lib.rs:427-476 | the suffix is empty iff the unit is dimensionless |
| Quantities.SuffixExamples | tests/quantity_display.rs:9-22 | m^-2 is written " m^-2" and an ampere " A" (no `^1`) |
| Quantities.DimensionlessDisplay | src/lib.rs:419-476 | `Display` of a dimensionless quantity is its magnitude alone: the real part for a real magnitude, the bracketed complex number otherwise |
| Quantities.DisplayExamples | tests/quantity_display.rs:7-31 | "1000 m^-2" and "(1+2i) A", given the formatters' texts for 1000 and 1+2i |
| Lexer.Exponent | dyn_quantity_lexer/src/lib.rs:14-23 | the power of ten is 0 without prefix and the prefix itself for the first power |
| Lexer.PowerFromPrefix | dyn_quantity_lexer/src/lib.rs:287-314 | the empty slice has no prefix; a prefix is a power between -30 and 30, non-zero, a multiple of 3 except for d (-1) and c (-2) |
| Lexer.PrefixIsFirstCharacter | dyn_quantity_lexer/src/lib.rs:287-314 | only the slice's first character decides the prefix |
| Lexer.PrefixTableInjective | dyn_quantity_lexer/src/lib.rs:287-314 | distinct prefix characters give distinct powers, except `u` and `µ` |
| Lexer.PrefixDetection | dyn_quantity_lexer/src/lib.rs:282-284 | `HasPrefix`: a character before the unit symbol is a prefix, and the symbol alone has none unless its second character repeats its first |
| Lexer.ParseExponent | dyn_quantity_lexer/src/lib.rs:268-280 | without `^` the exponent is 1; an exponent read is within 32 bits |
| Lexer.CaretIndexNone | dyn_quantity_lexer/src/lib.rs:268-280 | the search for `^` fails iff there is none |
| Lexer.ParseExponentOfText | dyn_quantity_lexer/src/lib.rs:268-280 | the integer after the first `^` is the exponent |
| Lexer.ParseExponentsAndPrefix | dyn_quantity_lexer/src/lib.rs:252-266 | succeeds iff the exponent reads and any prefix is known; the unit exponent is the parsed exponent; the prefix is 0 unless the second character starts the unit symbol, and is then the prefix table's value |
| Lexer.FirstCandidate | dyn_quantity_lexer/src/lib.rs:225-250 | the loop of `ParsePi`, `ParseDegree` and `ParseRadians`: fails iff every candidate fails; otherwise gives the result of the first candidate that succeeds |
| Lexer.ParseImag | dyn_quantity_lexer/src/lib.rs:188-210 | a bare i/j or one after a leading space is 1; otherwise the number is read from the text before the last character |
| Lexer.ParseImagWithSpace | dyn_quantity_lexer/src/lib.rs:188-210 | with a space before the i/j, the number is read from the text before the space |
| Lexer.ParsePowerOfTen | dyn_quantity_lexer/src/lib.rs:212-219 | without `^` there is no power; a power read is within 32 bits |
| Lexer.ParsePowerOfTenE | dyn_quantity_lexer/src/lib.rs:220-223 | a power read is within 32 bits |
| Lexer.PowerOfTenOfText | dyn_quantity_lexer/src/lib.rs:212-223 | the integer after `^`, or after the leading `e`, is the power |
| Lexer.MillisecondsCubed | dyn_quantity_lexer/tests/token.rs:70-83 | "ms^3" read for `s` is unit 3, prefix -3 |
| Lexer.InverseSecondsSquared | dyn_quantity_lexer/tests/token.rs:54-58 | "s^-2" is unit -2, prefix 0 |
| Lexer.MilliDegree | dyn_quantity_lexer/tests/degree.rs:49-60 | "mdegree" is the degree with prefix -3 |
| Lexer.PlainDegree | dyn_quantity_lexer/src/lib.rs:234-242 | "deg" is the degree with prefix 0 |
| Lexer.UnknownPrefixBeforePi | dyn_quantity_lexer/src/lib.rs:225-233 | "xpi" fails for the first candidate and gets prefix 0 from the next |
| Lexer.UpperCasePi | dyn_quantity_lexer/tests/degree.rs:63-69 | "PI" is π to the first power with prefix 0 |
| Lexer.RadiansSquared | dyn_quantity_lexer/tests/degree.rs:83-97 | "rad^2" is radians squared with prefix 0 |
| Lexer.BracketExponent | dyn_quantity_lexer/tests/token.rs:30-36 | ")^-2" has exponent -2 |
| Lexer.ImaginaryExamples | dyn_quantity_lexer/tests/token.rs:352-376 | " i" is 1 and "50j" reads "50" |
| Lexer.PowerOfTenExamples | dyn_quantity_lexer/tests/token.rs:385-396 | "* 10^2" is the power 2 and "e-3" the power -3 |
| Evaluator.Evaluate | src/from_str/from_str_impl.rs:594-605 | an empty token stream fails with `InputIsEmpty` at the end of the input |
| Evaluator.EvaluateReal | src/from_str/from_str_impl.rs:10-27 | parse errors pass through; the real parse succeeds iff the complex result is real, with the same quantity; otherwise the error has an empty substring, span 0..0 and the complex value |
| Evaluator.Adjust | src/from_str/from_str_impl.rs:61-72 | after `adjust` a quantity is always active |
| Evaluator.Close | src/from_str/from_str_impl.rs:263-286 | a failed bracket reduction is a summand mismatch reported at the bracket's text and span; a successful one leaves a prefix of the stack |
| Evaluator.ResolveDivision | src/from_str/from_str_impl.rs:528-554 | fails iff a division is pending with an empty stack, with `UnbalancedBrackets` at the token; otherwise clears the pending flag, resets the previous token and keeps the level |
| Evaluator.Fold | src/from_str/from_str_impl.rs:568-593 | a failure is a summand mismatch reported at the end of the input; a stack without `Add` entries always folds |
| Evaluator.RunFromConcat | src/from_str/from_str_impl.rs:153-163 | the loop over two token runs is the loop over the first, continued from its state |
| Evaluator.RunErrorSticks | src/from_str/from_str_impl.rs:153-163 | the first error ends the loop |
| Evaluator.CloseBracket | src/from_str/from_str_impl.rs:263-286 | the popping loop computes `Close` |
| Evaluator.FoldStack | src/from_str/from_str_impl.rs:568-593 | the fold loop computes `Fold` |
| Evaluator.ReadToken | src/from_str/from_str_impl.rs:164-525 | one token's effect on the loop state computes `ProcessToken` |
| Evaluator.CheckDivision | src/from_str/from_str_impl.rs:528-554 | the division check computes `ResolveDivision` |
| Evaluator.Conclude | src/from_str/from_str_impl.rs:557-605 | the end-of-input code computes `Finish` |
| Evaluator.FromStrComplex | src/from_str/from_str_impl.rs:133-605 | the token loop and the end of input compute `Evaluate` |
| Evaluator.FromStr | src/from_str/from_str_impl.rs:10-27 | the real parse computes `EvaluateReal` |
| EvaluatorProperties.OpenersPush | src/from_str/from_str_impl.rs:207-259 | pushing a `Mul` or `Div` entry adds one opener and an `Add` entry none |
| EvaluatorProperties.TopOpener | src/from_str/from_str_impl.rs:263-286 | with an opener on the stack, the topmost one has only `Add` entries above it |
| EvaluatorProperties.InitialInv | src/from_str/from_str_impl.rs:135-151 | the initial state satisfies the stack invariant |
| EvaluatorProperties.CloseStopsAtOpener | src/from_str/from_str_impl.rs:263-286 | `)` succeeds iff the summands above the topmost opener have the active unit; it then removes exactly the entries down to and including that opener; the value is the opener's value times or divided by the sum of the active value and those summands (`SumAbove`) to the bracket exponent, and the unit is the opener's unit times or divided by the content's unit to the bracket exponent; a failure is a unit mismatch starting from the active unit, at the bracket |
| EvaluatorProperties.ResolveKeepsInv | src/from_str/from_str_impl.rs:528-554 | from a state satisfying the invariant the division check never fails, so the "division without stack item" branch is unreachable |
| EvaluatorProperties.ValueTokenKeepsInv | src/from_str/from_str_impl.rs:164-179 | value and unit tokens never fail and keep the invariant |
| EvaluatorProperties.LeftBracketKeepsInv | src/from_str/from_str_impl.rs:242-259 | `(` never fails and pushes an opener for its bracket |
| EvaluatorProperties.RightBracketKeepsInv | src/from_str/from_str_impl.rs:260-309 | `)` keeps the invariant; if the level is 0 or nothing is active it fails with `UnbalancedBrackets` at the bracket, and a failure has that reason only in those cases |
| EvaluatorProperties.OperatorKeepsInv | src/from_str/from_str_impl.rs:186-346 | the four operators keep the invariant and never fail with `UnbalancedBrackets` |
| EvaluatorProperties.StepKeepsInv | src/from_str/from_str_impl.rs:153-555 | every iteration keeps the invariant; only `)` fails with `UnbalancedBrackets` inside the loop |
| EvaluatorProperties.StepErrorLocated | src/from_str/from_str_impl.rs:153-555 | every error inside the loop reports the current token's text and span |
| EvaluatorProperties.ProcessTokenEffects | src/from_str/from_str_impl.rs:164-525 | `ProcessToken`: only the operators and `)` fail, at the token's location; exactly the operators skip the division check; `(` raises the level by one, `)` lowers it by one, every other token keeps it |
| EvaluatorProperties.StepSettles | src/from_str/from_str_impl.rs:153-555 | `Step` with a token that is not an operator ends with previous token `Other` and no division pending |
| EvaluatorProperties.FinishOutcomes | src/from_str/from_str_impl.rs:557-605 | `Finish`: open brackets fail with `UnbalancedBrackets`; with an empty stack the result is the active quantity, or `InputIsEmpty` when there is none; every error is one of those or a summand mismatch, at the end of the input |
| EvaluatorProperties.FoldSplits | src/from_str/from_str_impl.rs:568-593 | the fold succeeds iff each `Add` entry has the unit accumulated below it; it then gives the values and units combined bottom first: summands added, `Mul` entries multiplied, `Div` entries divided (`FoldValue`, `FoldUnit`) |
| EvaluatorProperties.SummandsFoldToSum | src/from_str/from_str_impl.rs:568-593 | summands that all have the active unit fold to the sum of their values in that unit |
| EvaluatorProperties.RunPrefixOk | src/from_str/from_str_impl.rs:153-163 | a loop that succeeds succeeds on every prefix |
| EvaluatorProperties.RunKeepsInv | src/from_str/from_str_impl.rs:153-555 | the invariant holds after every successful loop |
| EvaluatorProperties.LevelCountsBrackets | src/from_str/from_str_impl.rs:242-309 | after a successful loop the bracket level is the number of `(` minus the number of `)`, so it never goes negative |
| EvaluatorProperties.ClosingTooManyFails | src/from_str/from_str_impl.rs:293-309 | a `)` after balanced brackets fails with `UnbalancedBrackets` at that `)` |
| EvaluatorProperties.UnclosedBracketFails | src/from_str/from_str_impl.rs:559-566 | unbalanced brackets after the loop fail with `UnbalancedBrackets` at the end of the input |
| EvaluatorProperties.SuccessMeansBalanced | src/from_str/from_str_impl.rs:559-566 | a text that evaluates has as many `(` as `)`, and no prefix closes more than it opened |
| EvaluatorProperties.LexingErrorFails | src/from_str/from_str_impl.rs:154-162 | a token the lexer could not read fails with `UnexpectedToken` at that token |
| EvaluatorProperties.LeadingOperatorFails | src/from_str/from_str_impl.rs:196-225 | a text starting with `*` or `/` fails with `MustNotStartWith` at that operator |
| EvaluatorProperties.MulOrDivWithoutQuantity | src/from_str/from_str_impl.rs:196-225 | `*` or `/` after a non-operator with nothing active fails with `MustNotStartWith` at the operator |
| EvaluatorProperties.OperatorWithoutQuantityFails | src/from_str/from_str_impl.rs:196-225 | anywhere in a text, `*` or `/` reached with nothing active and no operator before it fails with `MustNotStartWith` at that operator |
| EvaluatorProperties.CloseWithoutQuantityFails | src/from_str/from_str_impl.rs:260-300 | anywhere in a text, `)` reached with nothing active fails with `UnbalancedBrackets` at that `)` |
| EvaluatorProperties.AfterOpeningBracket | src/from_str/from_str_impl.rs:242-259 | right after `(` nothing is active and the previous token counts as `Other` |
| EvaluatorProperties.EmptyBracketsFail | src/from_str/from_str_impl.rs:242-300 | `)` right after `(` fails with `UnbalancedBrackets` at the `)` |
| EvaluatorProperties.OperatorAfterOpeningFails | src/from_str/from_str_impl.rs:196-259 | `*` or `/` right after `(` fails with `MustNotStartWith` at the operator |
| EvaluatorProperties.OperatorIsRemembered | src/from_str/from_str_impl.rs:186-346 | after each operator the previous token is that operator |
| EvaluatorProperties.MulOrDivAfterOperatorFails | src/from_str/from_str_impl.rs:186-215 | `*` or `/` right after any operator fails with `TwoOperatorsWithoutNumber` |
| EvaluatorProperties.SignAfterSignFails | src/from_str/from_str_impl.rs:311-338 | `+` or `-` right after `+` or `-` fails with `TwoOperatorsWithoutNumber` |
| EvaluatorProperties.LoopUnbalancedOnlyAtClose | src/from_str/from_str_impl.rs:542-551 | an `UnbalancedBrackets` error from the loop lies at some `)` |
| EvaluatorProperties.SymbolAddsNamedUnit | src/from_str/from_str_impl.rs:357-525 | a unit token multiplies the unit by its named unit to the token's exponent |
| EvaluatorProperties.SymbolTableAgrees | src/from_str/from_str_impl.rs:357-525 | `SymbolVector`: each unit symbol adds the vector of the crate's constructor for the unit it names; degree, radians and π are dimensionless |
| EvaluatorProperties.SymbolFactorPositive | src/from_str/from_str_impl.rs:357-525 | `Pow10` and `SymbolFactor`: the power of ten and every symbol's scaling factor are positive; the factor is the symbol's weight (1/60 per power of rpm, π/180 per power of degree, π per power of π, 1 otherwise) times 10 to the token's `exponent()`, with the prefix lowered by 3 for gram and raised by 3 for ton |
| EvaluatorProperties.SymbolScalesMagnitude | src/from_str/from_str_impl.rs:357-525 | `ApplySymbol` keeps a real magnitude real; for every symbol but °C, the result is zero exactly when the magnitude was zero |
| EvaluatorProperties.PrefixScales | src/from_str/from_str_impl.rs:357-525 | a prefix of power p on a symbol raised to u scales the magnitude by 10^(u·p) beyond the bare symbol and leaves the exponents alone, for every symbol including gram and ton |
| EvaluatorProperties.SymbolFactorPrefix | src/from_str/from_str_impl.rs:357-525 | every symbol's factor with a prefix is its factor without one times 10^(u·p) |
| EvaluatorProperties.KilogramIsBase | src/from_str/from_str_impl.rs:369-376 | "kg" multiplies by the mass unit and leaves the value |
| EvaluatorProperties.TonIsMegagram | src/from_str/from_str_impl.rs:518-525 | a ton is a gram with the prefix raised by 6 |
| EvaluatorProperties.OmegaIsOhm | src/from_str/from_str_impl.rs:501-509 | "Ω" and "ohm" act alike |
| EvaluatorExamples.StepClose | src/from_str/from_str_impl.rs:277-292 | `)` directly after its opener's content multiplies the opener by the content to the bracket exponent |
| EvaluatorExamples.TrailingPlusAddsOne | src/from_str/from_str_impl.rs:322-325 | "a +" evaluates to 1 + a |
| EvaluatorExamples.TrailingSlashIsIgnored | src/from_str/from_str_impl.rs:568-575 | "a /" evaluates to a |
| EvaluatorExamples.DivisionsFromTheLeft | tests/parse_success.rs:397-411 | "4 / 2 / 2" evaluates to 1 |
| EvaluatorExamples.NegativeOverNegative | tests/parse_success.rs:430-444 | "-4 / -4" evaluates to 1 |
| EvaluatorExamples.SignAfterStarAdds | src/from_str/from_str_impl.rs:329-346 | "a * -b" evaluates to -b + a |
| EvaluatorExamples.SignedBracketAfterSlash | src/from_str/from_str_impl.rs:528-554 | "a / -(b) + c" evaluates to a / c - b |
| EvaluatorExamples.PercentScales | tests/parse_success.rs:1040-1054 | "a %" evaluates to a · 0.01, as "0.4 %" gives 0.004 |
| EvaluatorExamples.NegativeAmperes | tests/parse_success.rs:41-55 | "-a A" evaluates to -a with the exponents of the ampere |
| EvaluatorExamples.BracketAfterNumberMultiplies | src/from_str/from_str_impl.rs:242-259 | "a (b)" evaluates to a · b, the implicit `*` before a bracket |
| EvaluatorExamples.ClosingWithoutOpening | tests/from_str_error.rs:51-57 | "1)" fails with `UnbalancedBrackets` at the `)` |
| EvaluatorExamples.BracketsLeftOpen | tests/from_str_error.rs:58-64 | "((a)", the test's "((2)" for any number, fails with `UnbalancedBrackets` at the end |
| EvaluatorExamples.EmptyBrackets | src/from_str/from_str_impl.rs:242-300 | "()" fails with `UnbalancedBrackets` at the `)` |
| EvaluatorExamples.StarOpensBracket | src/from_str/from_str_impl.rs:196-203 | "(*a)" fails with `MustNotStartWith` at the `*` |
| EvaluatorExamples.SlashSignCloses | src/from_str/from_str_impl.rs:260-292 | "(a / -)" evaluates to -a: the `)` pops the division entry and the bracket's opener is folded in at the end |
| EvaluatorExamples.KiloAmperes | src/from_str/from_str_impl.rs:377-382 | "a kA" evaluates to a · 1000 with the exponents of the ampere |
| EvaluatorExamples.KiloAmpereFactor | src/from_str/from_str_impl.rs:377-382 | by the prefix law, the factor of "kA" is the bare ampere's 1 times 10^3 = 1000 |
| EvaluatorExamples.PlainSymbol | src/from_str/from_str_impl.rs:357-525 | a unit token other than °C on a plain number multiplies it by the token's factor and gives it the token's unit |
| EvaluatorExamples.VoltPlusNumberFails | src/from_str.rs:221-229 | "1 + 2V" fails on the units (V, dimensionless) at the end of the input |
| EvaluatorExamples.ImaginaryIsNotReal | src/from_str.rs:198-211 | "5i" does not parse as a real quantity: the narrowing error holds 5i |
| EvaluatorExamples.ImaginarySquaredIsReal | src/from_str.rs:198-211 | "(2i)^2" parses as the real quantity -4 with no unit |

## Left out

- The `logos` regular-expression dispatch of the lexer is not modelled, nor the order in which it resolves overlapping patterns. The evaluator takes a token stream as input, and a `None` token stands for a lexing error.
- `Infinity` and `NegInfinity` tokens and `include_infinity` are not modelled. They only exist for IEEE floats.
- IEEE floating point is not modelled. This covers rounding, NaN, infinities and signed zero, `multiply_no_nan` (plain complex multiplication instead) and the NaN fix-ups in `DivAssign`.
- Division by a zero magnitude gives 0 in the model, where the crate gives infinities or NaN.
- Quantities.TryNthRoot: the `n`th root of a magnitude (`powf`) is a parameter.
- Lexer.ParseImag: `str::parse::<f64>` is a parameter. The slice must be non-empty; the lexer never hands over an empty one. The same goes for the float formatting of `Display`, which is a parameter of the error messages.
- Units.Root: requires n ≠ 0, since Rust panics on `exp % 0`.
- Exponent arithmetic is unbounded. `i32` overflow, which panics in debug builds, is not modelled.
- Evaluator.Evaluate: the location reported at the end of the input (`lexer.span()` after the last token) is a parameter, since it is a property of the lexer.
- The documentation examples "1 kA / m * 3.14 m^2" = 3140 and "3(1A + 4A)" = 15 A are not worked examples. The general lemmas give their values: a bracket's value (`EvaluatorProperties.CloseStopsAtOpener` with `SumAbove`), the final fold (`FoldSplits`), unit tokens and their prefixes (`SymbolAddsNamedUnit`, `PrefixScales`, `KiloAmperes`, `KilogramIsBase`, `TonIsMegagram`) and the implicit `*` before a bracket (`BracketAfterNumberMultiplies`, `StepClose`).
- "(3))" and "((1 + 3)" are covered by the general `ClosingTooManyFails` and `UnclosedBracketFails` rather than as worked examples. "(2i)^2" is the worked example `EvaluatorExamples.ImaginarySquaredIsReal`.
- The `UnitsNotEqual` variant of the src/error.rs `ParseErrorReason` has no constructor of its own. The evaluator raises the src/lib.rs variant `UnitsOfSummandsNotIdentical`, which carries the same pair of units.
- Serde support, the `uom` conversions, the C FFI, build.rs, `UnitFromType` and the unsafe `discriminant` are not modelled. They are glue to foreign libraries or raw memory.
