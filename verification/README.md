# Hybrid energy light control — a Dafny model

This project models the control cycle of a small MicroPython program for an ESP32 board.
Each cycle, the program reads two analog sensors: a solar panel and a battery. It converts
the two raw ADC counts into volts and decides whether there is enough power to keep a
remote Blink light on. It then sends the light service an HTTP PUT whose JSON body is
`{"state": "on"}` or `{"state": "off"}`. A reply with status 200 counts as success. Any
other status is an error that carries the code.

The model is written in four modules in `hybrid_energy.dfy`:

- `VoltageReader` scales a raw count onto volts: `(raw / 4095) * 3.3`, in exact reals.
- `PowerPolicy` holds the threshold decision. It is on from solar ≥ 5.0 V, otherwise on
  from battery ≥ 3.6 V, otherwise off. It also gives the state string passed on.
- `LightController` holds the commands (`SendOn`, `SendOff`, `NoRequest`) and their fixed
  bodies. It also classifies a status code as `Success` or `Error(code)`.
- `ControlLoop` composes one cycle. It also models a finite run of cycles as the sequence
  of commands issued.

The main result follows from the constants as written, not from a change to them. An
in-range count reads at most VREF = 3.3 V, which is below both thresholds (3.6 V and
5.0 V). So for every pair of in-range samples the policy takes its last branch, and every
cycle sends the "off" body (`ControlLoop.AlwaysOff`, `ControlLoop.RunAlwaysOff`).

`control_blink_light` does not catch exceptions from `urequests.put`. A transport failure
therefore propagates out of `manage_hybrid_system` and ends `main`'s loop
(index.py:50-52, 84-86). The model classifies only the status code of a reply that arrived.

## Model

| member | source | states |
|---|---|---|
| `VoltageReader.ReadVoltage` | index.py:22-28 | for a count in [0, 4095], the voltage v satisfies v·4095 = raw·3.3 and lies in [0, 3.3]; it is 0 exactly at count 0 and exactly 3.3 at count 4095 |
| `VoltageReader.ReadVoltageMonotonic` | index.py:25-28 | a larger count never reads lower; a strictly larger count reads strictly higher |
| `VoltageReader.ReadVoltageInjective` | index.py:25-28 | two counts read the same voltage iff they are equal |
| `PowerPolicy.Decide` | index.py:69-77 | solar ≥ 5.0 gives On whatever the battery; solar < 5.0 and battery ≥ 3.6 gives On; both below gives Off; overall On iff solar ≥ 5.0 or battery ≥ 3.6 (both inclusive) |
| `PowerPolicy.DecideMonotonic` | index.py:69-77 | raising either voltage can turn the decision from Off to On but never from On to Off |
| `PowerPolicy.StateName` | index.py:69-77 | the decision hands the controller "on" exactly for On and "off" exactly for Off |
| `LightController.Command.Body` | index.py:14-15 | each sending command has a one-key body whose "state" is "on" for SendOn and "off" for SendOff |
| `LightController.SelectCommand` | index.py:49-55 | "on" selects SendOn, "off" selects SendOff, and each only for that exact string; every other string selects NoRequest |
| `LightController.Classify` | index.py:57-60 | Success iff the status is exactly 200; every other status is an Error carrying that same code |
| `LightController.ControlBlinkLight` | index.py:43-60 | no request iff the state is neither "on" nor "off"; otherwise the body sent is `{"state": state}`, and the outcome is Success iff the status is 200, else an Error with that status |
| `ControlLoop.CycleState` | index.py:64-77 | the cycle decides On iff the solar reading is at least 5.0 V or the battery reading is at least 3.6 V, each reading being the converted sample |
| `ControlLoop.CycleCommand` | index.py:62-77 | a cycle always issues a request (never NoRequest), and it is SendOn iff the policy decided On |
| `ControlLoop.ManageHybridSystem` | index.py:62-77 | every cycle sends exactly one PUT, with the body of the decided state, and succeeds iff the status is 200, otherwise an Error carrying that status |
| `ControlLoop.Commands` | index.py:84-86 | a run of n cycles issues exactly n commands; command i is determined by the samples of cycle i alone, with no earlier state consulted |
| `ControlLoop.SampleBelowThresholds` | index.py:8-28 | every in-range count reads below the battery threshold 3.6 V and below the solar threshold 5.0 V |
| `ControlLoop.AlwaysOff` | index.py:62-77 | for any two in-range samples the decision is Off and the command is SendOff |
| `ControlLoop.RunAlwaysOff` | index.py:79-86 | over any finite run of the loop with in-range samples, every command issued is SendOff |

## Left out

- Wi-Fi bring-up (`connect_wifi`) is left out. It consists of network driver calls and an unbounded polling loop with a one-second sleep.
- The HTTP PUT itself is left out, along with its URL, bearer-token header and content type. The reply's status code is a parameter. Transport failures (DNS, TLS, refused connection) are not modelled, and the source does not handle them either: such an exception ends `main`'s `while True` loop, so `ControlLoop.Commands` describes only runs in which no transport failure happens.
- Hardware ADC access (`ADC(Pin(...))`, `sensor.read()`) is left out. A raw count is a parameter with the range [0, 4095] as its precondition. The source neither clamps nor rejects out-of-range counts, so the model does not invent either behaviour.
- Voltages are exact reals, not IEEE doubles. The rounding of `(raw / 4095) * 3.3` in floating point is not modelled.
- `main`'s infinite loop is modelled only as finite prefixes (`ControlLoop.Commands`). Its 60-second sleep and the `gc.collect()` call are scheduling and runtime housekeeping, and are left out.
- Console output and its `:.2f` formatting are logging only, and are left out.
