/** The sampler of hwmon/memory.go. The answer of `mem.VirtualMemory()` is an input: its
    `UsedPercent` together with the library's error. */
module Memory {
  import opened Common

  /** `GetRAMPercent`: the used percentage, or 0 together with the library's error. */
  function GetRAMPercent(q: Outcome<real>): (r: Outcome<real>)
    ensures r.err == q.err
    ensures r.Ok() ==> r.value == q.value
    ensures !r.Ok() ==> r.value == 0.0
  {
    if q.Ok() then Outcome(q.value, None) else Outcome(0.0, q.err)
  }
}
