/**
 * Loading a mission block from the RCD file: the accounting of the block
 * length and the rule that decides how many solved scenarios unlock each
 * scenario of the mission.
 *
 * A mission block holds a 12-byte header (its text reference, the unlock
 * limit and the number of scenarios) and, per scenario, an 8-byte header
 * (its text reference and the length of its saved game) followed by the
 * saved game itself. The values the reader delivers, the outcome of reading
 * each saved game and of preloading it, and whether each scenario has been
 * solved are the inputs of the model.
 */
module Missions {
  import opened LoadErrors
  import opened PatternStream
  import RcdReader

  const MISSION_VERSION: nat := 1
  /** The 4-byte text reference, the unlock limit and the number of scenarios. */
  const MISSION_HEADER: nat := 12
  /** The 4-byte text reference and the length of the saved game. */
  const SCENARIO_HEADER: nat := 8

  /**
   * One scenario as the block describes it, with what reading and preloading
   * it gave; `bytesRead` is whether the file delivered its saved game, which
   * can only succeed for a positive length.
   */
  datatype ScenarioRecord = ScenarioRecord(fctLength: uint32, bytesRead: bool, preloadOk: bool, solved: bool)

  /** A mission block: the header of the block and the values read from it. */
  datatype MissionBlock = MissionBlock(version: nat, size: uint32, maxUnlock: uint32, records: seq<ScenarioRecord>)

  /** A scenario of a loaded mission. */
  datatype MissionScenario = MissionScenario(fctLength: uint32, solved: bool, requiredToUnlock: int)

  /** A loaded mission. */
  datatype Mission = Mission(maxUnlock: uint32, scenarios: seq<MissionScenario>)

  // ---------------------------------------------------------------------
  // 32-bit arithmetic of the length accounting.

  /** Converting an unsigned 32-bit value to a 32-bit `int`: values from 2^31 on become negative. */
  function AsInt32(u: uint32): (r: int)
    ensures -0x8000_0000 <= r < 0x8000_0000
    ensures (r - u) % 0x1_0000_0000 == 0
    ensures u < 0x8000_0000 <==> r == u
  {
    if u < 0x8000_0000 then u else u - 0x1_0000_0000
  }

  /** `length -= u` for an `int` length and an unsigned `u`: the subtraction is done modulo 2^32. */
  function SubUnsigned(length: int, u: uint32): (r: int)
    ensures -0x8000_0000 <= r < 0x8000_0000
    ensures (r - (length - u)) % 0x1_0000_0000 == 0
    ensures -0x8000_0000 <= length - u < 0x8000_0000 ==> r == length - u
  {
    AsInt32((length - u) % 0x1_0000_0000)
  }

  // ---------------------------------------------------------------------
  // The length a well-formed block has.

  /** The bytes that the scenarios of `records` take up, headers included. */
  function Used(records: seq<ScenarioRecord>): nat
  {
    if records == [] then 0
    else Used(records[..|records| - 1]) + SCENARIO_HEADER + records[|records| - 1].fctLength
  }

  lemma {:induction false} UsedPrefix(records: seq<ScenarioRecord>, i: nat, j: nat)
    requires i <= j <= |records|
    ensures Used(records[..i]) + SCENARIO_HEADER * (j - i) <= Used(records[..j])
    decreases j - i
  {
    if i < j {
      UsedPrefix(records, i, j - 1);
      assert records[..j][..j - 1] == records[..j - 1];
    }
  }

  /** No saved game is 2^31 bytes or longer: the 32-bit arithmetic of the accounting never wraps. */
  predicate Small(records: seq<ScenarioRecord>)
  {
    forall i :: 0 <= i < |records| ==> records[i].fctLength < 0x8000_0000
  }

  /**
   * Every saved game could be read and preloaded. A saved game of length 0
   * never reads: `GetBlob` asks `fread` for one item of 0 bytes, which
   * yields no item.
   */
  predicate AllRead(records: seq<ScenarioRecord>)
  {
    forall i :: 0 <= i < |records| ==>
      records[i].fctLength > 0 && records[i].bytesRead && records[i].preloadOk
  }

  /** A block the loader accepts: version 1, scenarios, and exactly the length they take up. */
  predicate WellFormedBlock(blk: MissionBlock)
  {
    && blk.version == MISSION_VERSION
    && |blk.records| > 0
    && AsInt32(blk.size) == MISSION_HEADER + Used(blk.records)
    && AllRead(blk.records)
  }

  // ---------------------------------------------------------------------
  // The unlock rule.

  /** The number of solved scenarios in `solved`. */
  function NumSolved(solved: seq<bool>): (r: nat)
    ensures r <= |solved|
  {
    if solved == [] then 0
    else NumSolved(solved[..|solved| - 1]) + (if solved[|solved| - 1] then 1 else 0)
  }

  /**
   * The balance before a scenario: one up for every unsolved and one down
   * for every solved scenario before it.
   */
  function Balance(before: seq<bool>): int
  {
    |before| - 2 * NumSolved(before)
  }

  /**
   * How many more scenarios must be solved to unlock scenario `k`: none
   * when it is solved, otherwise the balance before it, or none when that
   * is negative.
   */
  function Required(solved: seq<bool>, k: nat): (r: nat)
    requires k < |solved|
    ensures r <= k
  {
    if solved[k] then 0
    else if Balance(solved[..k]) < 0 then 0
    else Balance(solved[..k])
  }

  /** The solved flags of the scenarios. */
  function SolvedFlags(scenarios: seq<MissionScenario>): (flags: seq<bool>)
    ensures |flags| == |scenarios|
    ensures forall k :: 0 <= k < |scenarios| ==> flags[k] == scenarios[k].solved
  {
    seq(|scenarios|, k requires 0 <= k < |scenarios| => scenarios[k].solved)
  }

  /** The first unsolved scenario is always unlocked. */
  lemma FirstUnsolvedUnlocked(solved: seq<bool>, k: nat)
    requires k < |solved| && !solved[k]
    requires forall j :: 0 <= j < k ==> solved[j]
    ensures Required(solved, k) == 0
  {
    AllSolved(solved[..k]);
  }

  lemma {:induction false} AllSolved(solved: seq<bool>)
    requires forall j :: 0 <= j < |solved| ==> solved[j]
    ensures NumSolved(solved) == |solved|
  {
    if solved != [] {
      AllSolved(solved[..|solved| - 1]);
    }
  }

  /**
   * Solving more scenarios never makes any scenario harder to unlock: with
   * every scenario solved in `solved` also solved in `more`, each
   * requirement under `more` is at most the one under `solved`.
   */
  lemma SolvingNeverRaises(solved: seq<bool>, more: seq<bool>, k: nat)
    requires |solved| == |more| && k < |solved|
    requires forall j :: 0 <= j < |solved| ==> solved[j] ==> more[j]
    ensures Required(more, k) <= Required(solved, k)
  {
    NumSolvedMonotone(solved[..k], more[..k]);
  }

  lemma {:induction false} NumSolvedMonotone(solved: seq<bool>, more: seq<bool>)
    requires |solved| == |more|
    requires forall j :: 0 <= j < |solved| ==> solved[j] ==> more[j]
    ensures NumSolved(solved) <= NumSolved(more)
  {
    if solved != [] {
      NumSolvedMonotone(solved[..|solved| - 1], more[..|more| - 1]);
    }
  }

  // ---------------------------------------------------------------------
  // The loops of `LoadMission`.

  /**
   * The unlock loop: with an unlock limit, every scenario gets the number
   * of solved scenarios it needs, threading the balance through the
   * scenarios in order; without one, nothing changes.
   */
  method UnlockScenarios(maxUnlock: uint32, scenarios: seq<MissionScenario>) returns (res: seq<MissionScenario>)
    ensures |res| == |scenarios|
    ensures forall k :: 0 <= k < |scenarios| ==>
              res[k] == scenarios[k].(requiredToUnlock :=
                if maxUnlock > 0 then Required(SolvedFlags(scenarios), k) else scenarios[k].requiredToUnlock)
  {
    res := scenarios;
    if maxUnlock > 0 {
      ghost var flags := SolvedFlags(scenarios);
      var balance := 0;
      var i := 0;
      while i < |res|
        invariant 0 <= i <= |res| == |scenarios|
        invariant balance == Balance(flags[..i])
        invariant -i <= balance <= i
        invariant forall k :: 0 <= k < i ==> res[k] == scenarios[k].(requiredToUnlock := Required(flags, k))
        invariant forall k :: i <= k < |res| ==> res[k] == scenarios[k]
      {
        assert flags[..i + 1][..i] == flags[..i];
        if res[i].solved {
          res := res[i := res[i].(requiredToUnlock := 0)];
          balance := balance - 1;
        } else {
          res := res[i := res[i].(requiredToUnlock := if balance < 0 then 0 else balance)];
          balance := balance + 1;
        }
        i := i + 1;
      }
    }
  }

  /**
   * The scenario loop of `LoadMission`, from `start` bytes left after the
   * mission header: each scenario's header and saved game must fit in what
   * is left, and its saved game must read and preload. Returns the loaded
   * scenarios and the bytes left after them.
   */
  method LoadScenarios(records: seq<ScenarioRecord>, start: int) returns (r: Result<seq<MissionScenario>>, length: int)
    requires 0 <= start < 0x8000_0000
    ensures -0x8000_0000 <= length < 0x8000_0000
    ensures r.Ok? ==> AllRead(records) && |r.value| == |records|
    ensures r.Ok? ==> forall k :: 0 <= k < |records| ==>
              r.value[k] == MissionScenario(records[k].fctLength, records[k].solved, 0)
    ensures Small(records) && r.Ok? ==> length == start - Used(records)
    ensures Small(records) && r.Err? ==> !AllRead(records) || start != Used(records)
  {
    length := start;
    var loaded: seq<MissionScenario> := [];
    var i := 0;
    while i < |records|
      invariant 0 <= i <= |records| && |loaded| == i
      invariant -0x8000_0000 <= length < 0x8000_0000
      invariant Small(records) ==> length == start - Used(records[..i])
      invariant AllRead(records[..i])
      invariant forall k :: 0 <= k < i ==> loaded[k] == MissionScenario(records[k].fctLength, records[k].solved, 0)
    {
      var rec := records[i];
      var check := RcdReader.CheckMinLength(length, SCENARIO_HEADER, "scenario header");
      if check.Fail? {
        UsedPrefix(records, i, |records|);
        assert records[..|records|] == records;
        return Err(check.error), length;
      }
      length := length - SCENARIO_HEADER;
      check := RcdReader.CheckMinLength(length, AsInt32(rec.fctLength), "scenario blob");
      if check.Fail? {
        UsedPrefix(records, i + 1, |records|);
        assert records[..i + 1][..i] == records[..i];
        assert records[..|records|] == records;
        return Err(check.error), length;
      }
      length := SubUnsigned(length, rec.fctLength);
      if rec.fctLength == 0 || !rec.bytesRead {
        return Err(ScenarioBytesFailed(i)), length;
      }
      if !rec.preloadOk {
        return Err(PreloadFailed(i)), length;
      }
      loaded := loaded + [MissionScenario(rec.fctLength, rec.solved, 0)];
      assert records[..i + 1][..i] == records[..i];
      i := i + 1;
    }
    assert records[..i] == records;
    r := Ok(loaded);
  }

  /**
   * `LoadMission`: checks the version and the header, loads every scenario
   * while accounting for the bytes it takes up, requires the block to be
   * used up exactly, and then applies the unlock rule.
   */
  method LoadMission(blk: MissionBlock) returns (r: Result<Mission>)
    ensures blk.version != MISSION_VERSION ==> r == Err(VersionMismatch(blk.version, MISSION_VERSION))
    ensures blk.version == MISSION_VERSION && AsInt32(blk.size) < MISSION_HEADER
            ==> r == Err(LengthTooShort("header", MISSION_HEADER - AsInt32(blk.size)))
    ensures blk.version == MISSION_VERSION && AsInt32(blk.size) >= MISSION_HEADER && blk.records == []
            ==> r == Err(MissionWithoutScenarios)
    ensures Small(blk.records) ==> (r.Ok? <==> WellFormedBlock(blk))
    ensures r.Ok? ==> AllRead(blk.records)
    ensures r.Ok? ==> r.value.maxUnlock == blk.maxUnlock && |r.value.scenarios| == |blk.records|
    ensures r.Ok? ==> forall k :: 0 <= k < |blk.records| ==>
              && r.value.scenarios[k].fctLength == blk.records[k].fctLength
              && r.value.scenarios[k].solved == blk.records[k].solved
              && r.value.scenarios[k].requiredToUnlock
                 == if blk.maxUnlock == 0 then 0 else Required(SolvedFlags(r.value.scenarios), k)
  {
    if blk.version != MISSION_VERSION {
      return Err(VersionMismatch(blk.version, MISSION_VERSION));
    }
    var length := AsInt32(blk.size);
    var check := RcdReader.CheckMinLength(length, MISSION_HEADER, "header");
    if check.Fail? {
      return Err(check.error);
    }
    length := length - MISSION_HEADER;
    var records := blk.records;
    if |records| == 0 {
      return Err(MissionWithoutScenarios);
    }
    var loaded;
    loaded, length := LoadScenarios(records, length);
    if loaded.Err? {
      return Err(loaded.error);
    }
    check := RcdReader.CheckExactLength(length, 0, "end of block");
    if check.Fail? {
      return Err(check.error);
    }
    var scenarios := UnlockScenarios(blk.maxUnlock, loaded.value);
    assert SolvedFlags(scenarios) == SolvedFlags(loaded.value);
    return Ok(Mission(blk.maxUnlock, scenarios));
  }
}
