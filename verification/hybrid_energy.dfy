/**
 A model of the control cycle of a small solar/battery energy monitor:
 two raw ADC samples are turned into volts, a threshold policy picks the
 desired state of a remote light, and the state selects one of two fixed
 JSON bodies for an HTTP PUT whose status code is classified as success or
 error. Voltages are exact reals; the hardware, the network and the HTTP
 transport are outside the model.
 */

/** Conversion of a raw ADC count into volts. */
module VoltageReader {

  /** Largest count the 12-bit ADC reports. */
  const ADC_MAX_VALUE: int := 4095

  /** Reference voltage of the ADC, in volts. */
  const VREF: real := 3.3

  /** A raw count the ADC can produce. */
  predicate InRange(raw: int) {
    0 <= raw <= ADC_MAX_VALUE
  }

  /**
   Linear scaling of a raw count onto [0, VREF]: the count is a fraction of
   ADC_MAX_VALUE and the voltage is that fraction of VREF. The two ends of
   the ADC range map exactly onto 0 V and VREF.
   */
  function ReadVoltage(raw: int): (v: real)
    requires InRange(raw)
    ensures 0.0 <= v <= VREF
    ensures v * (ADC_MAX_VALUE as real) == (raw as real) * VREF
    ensures v == 0.0 <==> raw == 0
    ensures v == VREF <==> raw == ADC_MAX_VALUE
  {
    (raw as real / ADC_MAX_VALUE as real) * VREF
  }

  /** A larger count never reads as a lower voltage, and a strictly larger one reads strictly higher. */
  lemma ReadVoltageMonotonic(a: int, b: int)
    requires InRange(a) && InRange(b)
    ensures a <= b ==> ReadVoltage(a) <= ReadVoltage(b)
    ensures a < b ==> ReadVoltage(a) < ReadVoltage(b)
  {
  }

  /** Distinct counts read as distinct voltages: the scaling loses nothing. */
  lemma ReadVoltageInjective(a: int, b: int)
    requires InRange(a) && InRange(b)
    ensures ReadVoltage(a) == ReadVoltage(b) <==> a == b
  {
  }
}

/** The decision of whether there is enough power to keep the light on. */
module PowerPolicy {

  /** Solar voltage at or above which the light is turned on, in volts. */
  const SOLAR_VOLTAGE_THRESHOLD: real := 5.0

  /** Battery voltage at or above which the light is turned on, in volts. */
  const BATTERY_VOLTAGE_THRESHOLD: real := 3.6

  datatype LightState = On | Off

  /**
   The if/elif/else chain of the control cycle: solar is looked at first,
   the battery only when solar falls short; both comparisons are inclusive.
   */
  function Decide(solar: real, battery: real): (s: LightState)
    ensures solar >= SOLAR_VOLTAGE_THRESHOLD ==> s == On
    ensures solar < SOLAR_VOLTAGE_THRESHOLD && battery >= BATTERY_VOLTAGE_THRESHOLD ==> s == On
    ensures solar < SOLAR_VOLTAGE_THRESHOLD && battery < BATTERY_VOLTAGE_THRESHOLD ==> s == Off
    ensures s == On <==> solar >= SOLAR_VOLTAGE_THRESHOLD || battery >= BATTERY_VOLTAGE_THRESHOLD
  {
    if solar >= SOLAR_VOLTAGE_THRESHOLD then On
    else if battery >= BATTERY_VOLTAGE_THRESHOLD then On
    else Off
  }

  /** Raising either voltage can only turn the light on, never off. */
  lemma DecideMonotonic(solar: real, battery: real, solar': real, battery': real)
    requires solar <= solar' && battery <= battery'
    ensures Decide(solar, battery) == On ==> Decide(solar', battery') == On
  {
  }

  /** The state string the control cycle hands to the light controller. */
  function StateName(s: LightState): (name: string)
    ensures name == "on" <==> s == On
    ensures name == "off" <==> s == Off
  {
    match s
    case On => "on"
    case Off => "off"
  }
}

/** Choice of the request sent to the light service and the reading of its reply. */
module LightController {

  /** A JSON object with string values, as sent in the body of the PUT. */
  type Json = map<string, string>

  /** Body that asks the service to switch the light on. */
  const BLINK_STATE_ON: Json := map["state" := "on"]

  /** Body that asks the service to switch the light off. */
  const BLINK_STATE_OFF: Json := map["state" := "off"]

  /** The HTTP status code that counts as success. */
  const HTTP_OK: int := 200

  /** What the controller does for a state string before any reply arrives. */
  datatype Command = SendOn | SendOff | NoRequest
  {
    /** Body of the PUT this command issues; only the two sending commands have one. */
    function Body(): (body: Json)
      requires this != NoRequest
      ensures "state" in body && |body| == 1
      ensures body["state"] == (if this == SendOn then "on" else "off")
    {
      if this == SendOn then BLINK_STATE_ON else BLINK_STATE_OFF
    }
  }

  /** How a reply to the PUT is classified. */
  datatype Outcome = Success | Error(code: int)

  /** The effect of one call of the controller: no request at all, or one body sent and its outcome. */
  datatype Attempt = NotSent | Sent(body: Json, outcome: Outcome)

  /**
   The first branch of the controller: exactly the strings "on" and "off"
   lead to a request, each with its own fixed body; any other string sends
   nothing.
   */
  function SelectCommand(state: string): (c: Command)
    ensures c == SendOn <==> state == "on"
    ensures c == SendOff <==> state == "off"
    ensures c == NoRequest <==> state != "on" && state != "off"
  {
    if state == "on" then SendOn
    else if state == "off" then SendOff
    else NoRequest
  }

  /** The second branch of the controller: a status code of exactly 200 is success, any other is an error carrying it. */
  function Classify(status: int): (o: Outcome)
    ensures o == Success <==> status == HTTP_OK
    ensures o.Error? ==> o.code == status
  {
    if status == HTTP_OK then Success else Error(status)
  }

  /**
   One call of the controller with the state string it is given; `status`
   stands for the status code the service would answer, and is looked at
   only when a request goes out.
   */
  function ControlBlinkLight(state: string, status: int): (a: Attempt)
    ensures a == NotSent <==> state != "on" && state != "off"
    ensures a.Sent? ==> a.body == map["state" := state]
    ensures a.Sent? ==> (a.outcome == Success <==> status == HTTP_OK)
    ensures a.Sent? && a.outcome.Error? ==> a.outcome.code == status
  {
    var c := SelectCommand(state);
    if c == NoRequest then NotSent
    else
      assert c.Body() == map["state" := state];
      Sent(c.Body(), Classify(status))
  }
}

/** One cycle of the control loop, and a finite run of cycles. */
module ControlLoop {
  import opened VoltageReader
  import opened PowerPolicy
  import opened LightController

  /** A pair of raw ADC counts read in one cycle: solar panel first, battery second. */
  datatype Samples = Samples(solar: int, battery: int)

  predicate ValidSamples(s: Samples) {
    InRange(s.solar) && InRange(s.battery)
  }

  /** The light state one cycle asks for, from its two samples. */
  function CycleState(s: Samples): (st: LightState)
    requires ValidSamples(s)
    ensures st == On <==> ReadVoltage(s.solar) >= SOLAR_VOLTAGE_THRESHOLD || ReadVoltage(s.battery) >= BATTERY_VOLTAGE_THRESHOLD
  {
    Decide(ReadVoltage(s.solar), ReadVoltage(s.battery))
  }

  /** The command one cycle issues: the decision's state string passed to the controller. */
  function CycleCommand(s: Samples): (c: Command)
    requires ValidSamples(s)
    ensures c != NoRequest
    ensures c == SendOn <==> CycleState(s) == On
  {
    SelectCommand(StateName(CycleState(s)))
  }

  /**
   One whole cycle: both samples converted, the policy applied, and the
   controller called with the chosen state; `status` stands for the reply of
   the service. A request always goes out, with the body of the decided state.
   */
  function ManageHybridSystem(s: Samples, status: int): (a: Attempt)
    requires ValidSamples(s)
    ensures a.Sent?
    ensures a.body == map["state" := StateName(CycleState(s))]
    ensures a.outcome == Success <==> status == HTTP_OK
    ensures a.outcome.Error? ==> a.outcome.code == status
  {
    ControlBlinkLight(StateName(CycleState(s)), status)
  }

  /**
   The commands of the first |trace| iterations of the control loop, one per
   cycle, each from that cycle's samples alone: no earlier cycle, and no
   earlier state of the light, is consulted, so a command is issued even when
   it repeats the previous one.
   */
  function Commands(trace: seq<Samples>): (cs: seq<Command>)
    requires forall i :: 0 <= i < |trace| ==> ValidSamples(trace[i])
    ensures |cs| == |trace|
    ensures forall i :: 0 <= i < |trace| ==> cs[i] == CycleCommand(trace[i])
  {
    if trace == [] then []
    else Commands(trace[..|trace| - 1]) + [CycleCommand(trace[|trace| - 1])]
  }

  /** No in-range sample reaches either threshold: the ADC tops out at VREF = 3.3 V, below 3.6 V and 5.0 V. */
  lemma SampleBelowThresholds(raw: int)
    requires InRange(raw)
    ensures ReadVoltage(raw) < BATTERY_VOLTAGE_THRESHOLD
    ensures ReadVoltage(raw) < SOLAR_VOLTAGE_THRESHOLD
  {
  }

  /**
   The consequence of the constants as written: whatever the two in-range
   samples are, the policy takes its last branch and the light is turned off.
   */
  lemma AlwaysOff(s: Samples)
    requires ValidSamples(s)
    ensures CycleState(s) == Off
    ensures CycleCommand(s) == SendOff
  {
  }

  /** Over any finite run of the loop, every command issued is the "off" request. */
  lemma RunAlwaysOff(trace: seq<Samples>)
    requires forall i :: 0 <= i < |trace| ==> ValidSamples(trace[i])
    ensures forall c :: c in Commands(trace) ==> c == SendOff
  {
  }
}
