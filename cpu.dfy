/** The samplers of hwmon/cpu.go. The library answers (`cpu.Percent(0, false)` and
    `host.SensorsTemperatures()`) are inputs. */
module Cpu {
  import opened Common

  /** One entry of the temperature query. */
  datatype TemperatureStat = TemperatureStat(sensorKey: string, temperature: real)

  const ChipsetSensorKey := "k10temp"

  /** `GetCPUPercent`: the first percentage of the list; a library error is passed on
      and an empty list is an error of its own, both with the value 0. */
  function GetCPUPercent(q: Outcome<seq<real>>): (r: Outcome<real>)
    ensures r.Ok() <==> q.Ok() && |q.value| > 0
    ensures r.Ok() ==> r.value == q.value[0]
    ensures !q.Ok() ==> r == Outcome(0.0, q.err)
    ensures q.Ok() && |q.value| == 0 ==> r == Outcome(0.0, Some("no CPU percent data"))
  {
    if !q.Ok() then Outcome(0.0, q.err)
    else if |q.value| == 0 then Outcome(0.0, Some("no CPU percent data"))
    else Outcome(q.value[0], None)
  }

  /** The position of the first sensor whose key is exactly "k10temp", or the length of the
      list when there is none. */
  function ChipsetSensorIndex(sensors: seq<TemperatureStat>): (i: nat)
    ensures i <= |sensors|
    ensures forall j :: 0 <= j < i ==> sensors[j].sensorKey != ChipsetSensorKey
    ensures i < |sensors| ==> sensors[i].sensorKey == ChipsetSensorKey
  {
    if sensors == [] then 0
    else if sensors[0].sensorKey == ChipsetSensorKey then 0
    else 1 + ChipsetSensorIndex(sensors[1..])
  }

  /** `GetChipsetTemp`: the temperature of the first "k10temp" sensor; a library error is passed
      on, and a list without such a sensor (the empty list included) is an error, both with 0. */
  function GetChipsetTemp(q: Outcome<seq<TemperatureStat>>): (r: Outcome<real>)
    ensures !q.Ok() ==> r == Outcome(0.0, q.err)
    ensures q.Ok() ==> (r.Ok() <==> exists j :: 0 <= j < |q.value| && q.value[j].sensorKey == ChipsetSensorKey)
    ensures q.Ok() && !r.Ok() ==> r == Outcome(0.0, Some("k10temp sensor not found"))
    ensures r.Ok() ==>
      exists i ::
        && 0 <= i < |q.value|
        && q.value[i].sensorKey == ChipsetSensorKey
        && r.value == q.value[i].temperature
        && forall j :: 0 <= j < i ==> q.value[j].sensorKey != ChipsetSensorKey
  {
    if !q.Ok() then Outcome(0.0, q.err)
    else
      var i := ChipsetSensorIndex(q.value);
      if i < |q.value| then Outcome(q.value[i].temperature, None)
      else Outcome(0.0, Some("k10temp sensor not found"))
  }
}
