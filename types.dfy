/** The records the calculator reads and produces; every field is a JavaScript number. */
module CalculatorTypes {
  import opened JsNumber

  /** One pump's operating point as the caller gives it. */
  datatype PumpInput = PumpInput(flowM3PerH: Num, headM: Num, velocityMPerS: Num)

  /** A pump's operating point with its flow converted to cubic metres per second. */
  datatype PumpCalculated = PumpCalculated(flowM3PerH: Num, headM: Num, velocityMPerS: Num, flowM3PerS: Num)

  /** The sizing of one valve: its bore and its design pressure. */
  datatype ValveResult = ValveResult(diameterMm: Num, pressureM: Num)

  /** The full request: both pumps and the target velocity in the shared manifold. */
  datatype CalculatorInputs = CalculatorInputs(pump1: PumpInput, pump2: PumpInput, manifoldVelocityMPerS: Num)

  /** The full response: both pumps, the seven valves and the three clearance lengths. */
  datatype CalculatorResults = CalculatorResults(
    pump1: PumpCalculated,
    pump2: PumpCalculated,
    checkValveK1: ValveResult,
    checkValveK2: ValveResult,
    gateValveZ1: ValveResult,
    gateValveZ2: ValveResult,
    gateValveZ3: ValveResult,
    gateValveZ4: ValveResult,
    gateValveZ5: ValveResult,
    length1: Num,
    length2: Num,
    length3: Num)
}
