/** The `Car` / `RaceCar` / `FormulaOne` class hierarchy, its initialisers,
    `fillGasTank` and the type-matching `tuneUp`. A value records which class
    was instantiated and its stored properties; each initialiser is a
    function building one. */
module Cars {

  /** `struct Color { let red, green, blue: Double }`: carried, never computed with. */
  datatype Color = Color(red: real, green: real, blue: real)

  /** `let minimumWeight = 642` in `FormulaOne`. */
  const FormulaOneMinimumWeight: int := 642

  datatype Car =
    | PlainCar(paintColor: Color)
    | RaceCar(paintColor: Color, hasTurbo: bool)
    | FormulaOne(paintColor: Color, hasTurbo: bool, minimumWeight: int)

  /** `car is RaceCar`: a `FormulaOne` is a `RaceCar` too. */
  predicate IsRaceCar(car: Car) {
    car.RaceCar? || car.FormulaOne?
  }

  /** What every instance satisfies after initialisation: a `FormulaOne`'s
      constant `minimumWeight` is 642. */
  predicate Valid(car: Car) {
    car.FormulaOne? ==> car.minimumWeight == FormulaOneMinimumWeight
  }

  /** `Car.init(color:)`. */
  function NewCar(color: Color): (car: Car)
    ensures Valid(car) && !IsRaceCar(car)
    ensures car.paintColor == color
  {
    PlainCar(color)
  }

  /** `RaceCar.init(color:turbo:)`, the designated initialiser: sets `hasTurbo`,
      then `super.init(color:)` sets the paint. */
  function NewRaceCar(color: Color, turbo: bool): (car: Car)
    ensures Valid(car) && car.RaceCar?
    ensures car.paintColor == color && car.hasTurbo == turbo
  {
    RaceCar(NewCar(color).paintColor, turbo)
  }

  /** `override convenience init(color:)` of `RaceCar`: turbo on. */
  function RaceCarWithColor(color: Color): (car: Car)
    ensures Valid(car) && car.RaceCar?
    ensures car.paintColor == color && car.hasTurbo
  {
    NewRaceCar(color, true)
  }

  /** The colour the argument-less `RaceCar()` paints with. */
  const DefaultRaceCarColor: Color := Color(1.5, 2.0, 4.5)

  /** `convenience init()` of `RaceCar`. */
  function DefaultRaceCar(): (car: Car)
    ensures Valid(car) && car.RaceCar?
    ensures car.paintColor == DefaultRaceCarColor && car.hasTurbo
  {
    RaceCarWithColor(DefaultRaceCarColor)
  }

  /** `FormulaOne.init(color:)`: `super.init(color: color, turbo: false)`, with
      `minimumWeight` at its declared value. */
  function NewFormulaOne(color: Color): (car: Car)
    ensures Valid(car) && car.FormulaOne? && IsRaceCar(car)
    ensures car.paintColor == color && !car.hasTurbo
    ensures car.minimumWeight == 642
  {
    var base := NewRaceCar(color, false);
    FormulaOne(base.paintColor, base.hasTurbo, FormulaOneMinimumWeight)
  }

  /** The two colour-only initialisers differ only in the turbo: the
      `FormulaOne` override turns off what the `RaceCar` one turns on. */
  lemma FormulaOneOverridesTurbo(color: Color)
    ensures RaceCarWithColor(color).hasTurbo && !NewFormulaOne(color).hasTurbo
    ensures RaceCarWithColor(color).paintColor == NewFormulaOne(color).paintColor == color
  {
  }

  /** `fillGasTank()`: `Car`'s version and `RaceCar`'s override, dispatched on
      the dynamic class; both bodies are empty. */
  function FillGasTank(car: Car): (after: Car)
    ensures after == car
  {
    match car
    case PlainCar(_) => car
    case RaceCar(_, _) => car
    case FormulaOne(_, _, _) => car
  }

  /** The switch in `tuneUp`: the arm it ran first and the value it produced. */
  datatype TuneUpOutcome = TuneUpOutcome(matchedFormulaOne: bool, car: Car, value: string)

  /** `tuneUp(car)`: a `FormulaOne` matches `case let formulaOne as FormulaOne`,
      fills its tank and falls through to `default`; any other car goes to
      `default` directly. */
  function TuneUp(car: Car): (r: TuneUpOutcome)
    ensures r.matchedFormulaOne <==> car.FormulaOne?
    ensures r.car == car
    ensures r.value == "Fill the gas tank"
  {
    if car.FormulaOne? then
      var filled := FillGasTank(car);
      TuneUpOutcome(true, filled, "Fill the gas tank")
    else
      TuneUpOutcome(false, car, "Fill the gas tank")
  }
}
