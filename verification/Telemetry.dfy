/** The data model shared by narration and recording (crates/core/src/model.rs): every metric
    is optional, and "unobservable" (None) is never the same as a zero. Percentages are reals. */
module Telemetry {
  import opened Base

  datatype ThrottleReasons =
    ThrottleReasons(thermal: bool, powerCap: bool, hwSlowdown: bool, syncBoost: bool, other: bool)
  {
    predicate Any() {
      thermal || powerCap || hwSlowdown || syncBoost || other
    }
  }

  datatype DynamicSample = DynamicSample(
    ts: nat,
    util: Option<real>,
    memUsed: Option<nat>,
    power: Option<nat>,
    temp: Option<real>,
    fan: Option<real>,
    smClock: Option<nat>,
    throttle: Option<ThrottleReasons>)
  {
    // The throttle bitmask was readable and at least one reason was set.
    predicate ObservedActive() {
      throttle.Some? && throttle.value.Any()
    }
  }

  datatype ProcessKind = Compute | Graphics | Both | Unknown

  datatype ProcessSample = ProcessSample(
    pid: nat,
    name: string,
    kind: ProcessKind,
    mem: Option<nat>,
    util: Option<real>,
    cpu: Option<real>,
    container: Option<string>)

  // Collecting a process slice into a map by pid: the last entry of a repeated pid wins.
  function Collect(ps: seq<ProcessSample>): (m: map<nat, ProcessSample>)
    ensures forall p :: p in m ==> m[p].pid == p && m[p] in ps
    ensures forall q :: q in ps ==> q.pid in m
  {
    if ps == [] then map[]
    else
      var last := ps[|ps| - 1];
      var front := ps[..|ps| - 1];
      assert ps == front + [last];
      Collect(front)[last.pid := last]
  }

  // Of the entries of one pid it is the last that counts.
  lemma {:induction false} LastWins(ps: seq<ProcessSample>, i: nat)
    requires i < |ps| && forall j :: i < j < |ps| ==> ps[j].pid != ps[i].pid
    ensures Collect(ps)[ps[i].pid] == ps[i]
  {
    var front := ps[..|ps| - 1];
    if i < |front| {
      assert front[i] == ps[i] && forall j :: i < j < |front| ==> front[j] == ps[j];
      LastWins(front, i);
    }
  }
}
