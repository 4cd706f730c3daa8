/** The lane configuration of `StarbugVLIWConfig.cpp`, without the per-lane override string. */
module VliwConfig {
  datatype OpClass =
    | Any | AluAddSub | AluMulDiv | AluShift | LoadClass | StoreClass | BranchClass | Compare | Move | Csr

  datatype LaneConfig = LaneConfig(laneId: nat, allowed: set<OpClass>)

  datatype Config = Config(numLanes: nat, lanes: seq<LaneConfig>, allowShort: bool, emitSingle: bool)

  const ARITHMETIC := {AluAddSub, AluMulDiv, AluShift}

  function MakeLane0(): LaneConfig {
    LaneConfig(0, {Any})
  }

  function MakeAluLane(laneId: nat): LaneConfig {
    LaneConfig(laneId, ARITHMETIC)
  }

  predicate IsLaneLegal(c: Config, lane: nat, cls: OpClass) {
    lane < |c.lanes| && (Any in c.lanes[lane].allowed || cls in c.lanes[lane].allowed)
  }

  /** Lane 0 takes anything, every other lane integer arithmetic. */
  predicate Standard(c: Config) {
    && c.numLanes >= 1 && |c.lanes| == c.numLanes
    && c.lanes[0].allowed == {Any}
    && forall k :: 0 < k < c.numLanes ==> c.lanes[k].allowed == ARITHMETIC
  }

  lemma {:induction false} StandardLanes(c: Config, lane: nat, cls: OpClass)
    requires Standard(c)
    ensures IsLaneLegal(c, lane, cls) <==> lane == 0 || (lane < c.numLanes && cls in ARITHMETIC)
  {
  }

  /** The configuration the options build when no per-lane override is given. */
  method FromCommandLine(laneCount: nat, emitSingle: bool) returns (c: Config)
    ensures Standard(c) && c.numLanes == (if laneCount == 0 then 1 else laneCount)
    ensures c.allowShort && c.emitSingle == emitSingle
    ensures forall k :: 0 <= k < c.numLanes ==> c.lanes[k].laneId == k
  {
    c := Config(if laneCount == 0 then 1 else laneCount, [], true, emitSingle);
    c := c.(lanes := c.lanes + [MakeLane0()]);
    for lane := 1 to c.numLanes
      invariant c.numLanes == (if laneCount == 0 then 1 else laneCount)
      invariant c.allowShort && c.emitSingle == emitSingle
      invariant |c.lanes| == lane && c.lanes[0] == MakeLane0()
      invariant forall k :: 0 < k < lane ==> c.lanes[k] == MakeAluLane(k)
    {
      c := c.(lanes := c.lanes + [MakeAluLane(lane)]);
    }
  }
}
