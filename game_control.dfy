/**
 * High-level game control: the speed setting, the pending game action that
 * the main loop runs, the gate in front of every build or remove action,
 * and the choice between two reasons for refusing one.
 *
 * Loading and saving the game file, setting up a new world, the windows
 * and the messages shown are outside the model; what they report back (did
 * the file load) is an input.
 */
module GameControls {

  // ---------------------------------------------------------------------
  // Game speed.

  /** The game speed settings, slowest first. */
  datatype GameSpeed = Pause | Speed1 | Speed2 | Speed4 | Speed8

  /** `speed_factor`: how many game ticks one frame runs at `speed`. */
  function SpeedFactor(speed: GameSpeed): (r: nat)
    ensures r == 0 <==> speed == Pause
    ensures r in {0, 1, 2, 4, 8}
  {
    match speed
    case Pause => 0
    case Speed1 => 1
    case Speed2 => 2
    case Speed4 => 4
    case Speed8 => 8
  }

  /** Different speed settings run different numbers of ticks per frame. */
  lemma SpeedFactorInjective(a: GameSpeed, b: GameSpeed)
    ensures SpeedFactor(a) == SpeedFactor(b) ==> a == b
  {
  }

  /** The position of a speed setting in the order of the settings. */
  function SpeedRank(speed: GameSpeed): nat
  {
    match speed
    case Pause => 0
    case Speed1 => 1
    case Speed2 => 2
    case Speed4 => 3
    case Speed8 => 4
  }

  /** A faster setting runs more ticks per frame; each step up doubles the ticks from `Speed1` on. */
  lemma SpeedFactorIncreasing(a: GameSpeed, b: GameSpeed)
    ensures SpeedRank(a) < SpeedRank(b) <==> SpeedFactor(a) < SpeedFactor(b)
    ensures SpeedRank(a) >= 1 ==> SpeedFactor(a) == Pow2(SpeedRank(a) - 1)
  {
  }

  function Pow2(n: nat): (r: nat)
    ensures r >= 1
  {
    if n == 0 then 1 else 2 * Pow2(n - 1)
  }

  // ---------------------------------------------------------------------
  // Reasons for refusing an action.

  /** The error texts the build and remove checks give; `Other` is any further text. */
  datatype Reason =
    | Null | Empty
    | Paused | Occupied | Expensive | Unremovable
    | BadLocation | UnownedLand | Slope | Underground
    | Other(id: nat)

  /** `STR_NULL` and `STR_EMPTY` are no reason at all. */
  predicate NoReason(r: Reason)
  {
    r == Null || r == Empty
  }

  /** Reasons that a later reason other than `Paused` never displaces. */
  predicate Blocking(r: Reason)
  {
    r == Occupied || r == Expensive || r == Unremovable
  }

  /**
   * `CheckIsMoreImportantReason`: of the reason found earlier and another
   * one that also applies, the one to show to the user.
   */
  function MoreImportantReason(older: Reason, other: Reason): (r: Reason)
    ensures r == older || r == other
    ensures NoReason(other) ==> r == older
    ensures !NoReason(other) && NoReason(older) ==> r == other
    ensures other == Paused || older == Paused ==> r == Paused
    ensures Blocking(older) && other != Paused ==> r == older
    ensures older == BadLocation && !NoReason(other) ==> r == other
    ensures other == BadLocation && !NoReason(older) ==> r == older
  {
    if NoReason(other) then older
    else if NoReason(older) then other
    else if other == Paused then other
    else if older == Paused then older
    else if Blocking(older) then older
    else if older == BadLocation then other
    else if other == BadLocation then older
    else if Blocking(other) then other
    else if older == UnownedLand then other
    else if older == Slope || older == Underground then (if other != UnownedLand then other else older)
    else if other == Slope || other == Underground then older
    else other
  }

  /** Choosing again with the same other reason changes nothing. */
  lemma MoreImportantIdempotent(older: Reason, other: Reason)
    ensures MoreImportantReason(MoreImportantReason(older, other), other) == MoreImportantReason(older, other)
  {
  }

  /** The reason shown after checking `older` against every reason of `rs` in turn. */
  function FoldReasons(older: Reason, rs: seq<Reason>): Reason
    decreases |rs|
  {
    if rs == [] then older else FoldReasons(MoreImportantReason(older, rs[0]), rs[1..])
  }

  /** The reason shown is the first one or one of those checked against it. */
  lemma {:induction false} FoldPicksOne(older: Reason, rs: seq<Reason>)
    ensures FoldReasons(older, rs) == older || FoldReasons(older, rs) in rs
    decreases |rs|
  {
    if rs != [] {
      FoldPicksOne(MoreImportantReason(older, rs[0]), rs[1..]);
    }
  }

  /** Once the game is paused, that is the reason shown, whatever else applies. */
  lemma {:induction false} PausedWins(older: Reason, rs: seq<Reason>)
    requires older == Paused || Paused in rs
    ensures FoldReasons(older, rs) == Paused
    decreases |rs|
  {
    if rs != [] {
      if older != Paused && rs[0] != Paused {
        assert Paused in rs[1..];
      }
      PausedWins(MoreImportantReason(older, rs[0]), rs[1..]);
    }
  }

  /** Some reason is shown exactly when some reason applies. */
  lemma {:induction false} FoldFindsReason(older: Reason, rs: seq<Reason>)
    ensures !NoReason(FoldReasons(older, rs))
            <==> !NoReason(older) || exists i :: 0 <= i < |rs| && !NoReason(rs[i])
    decreases |rs|
  {
    if rs != [] {
      var next := MoreImportantReason(older, rs[0]);
      FoldFindsReason(next, rs[1..]);
      if exists i :: 0 <= i < |rs[1..]| && !NoReason(rs[1..][i]) {
        var i :| 0 <= i < |rs[1..]| && !NoReason(rs[1..][i]);
        assert !NoReason(rs[i + 1]);
      }
      if exists i :: 0 <= i < |rs| && !NoReason(rs[i]) {
        var i :| 0 <= i < |rs| && !NoReason(rs[i]);
        if i > 0 {
          assert !NoReason(rs[1..][i - 1]);
        }
      }
    }
  }

  // ---------------------------------------------------------------------
  // The gate in front of build and remove actions.

  /** The game modes the checks tell apart; `ModeOther` stands for every mode but these two. */
  datatype GameMode = ModeNone | ModePlay | ModeOther

  /** The kind of action a check is for; it only selects the heading of the message. */
  datatype CheckActionType = Build | Remove

  datatype Heading = BuildHeading | RemoveHeading

  /** The outcome of `CheckActionAllowed`: allowed, or refused with the message shown. */
  datatype Verdict = Allowed | Refused(heading: Heading, reason: Reason)

  function HeadingFor(kind: CheckActionType): Heading
  {
    if kind == Build then BuildHeading else RemoveHeading
  }

  /**
   * `CheckActionAllowed`: in play mode nothing may be done while the game
   * is paused, nor anything that costs more than the cash at hand. The
   * game mode, the speed and the cash are the program's globals.
   */
  function CheckActionAllowed(kind: CheckActionType, cost: int, mode: GameMode, speed: GameSpeed, cash: int): (v: Verdict)
    ensures v == Allowed <==> mode != ModePlay || (speed != Pause && (cost <= 0 || cost <= cash))
    ensures mode == ModePlay && speed == Pause ==> v == Refused(HeadingFor(kind), Paused)
    ensures v.Refused? ==> v.heading == HeadingFor(kind) && (v.reason == Paused || v.reason == Expensive)
  {
    if mode == ModePlay && speed == Pause then Refused(HeadingFor(kind), Paused)
    else if mode == ModePlay && cost > 0 && cost > cash then Refused(HeadingFor(kind), Expensive)
    else Allowed
  }

  /** More cash never turns an allowed action into a refused one. */
  lemma MoreCashStillAllowed(kind: CheckActionType, cost: int, mode: GameMode, speed: GameSpeed, cash: int, more: int)
    requires cash <= more
    requires CheckActionAllowed(kind, cost, mode, speed, cash) == Allowed
    ensures CheckActionAllowed(kind, cost, mode, speed, more) == Allowed
  {
  }

  /** The kind of action changes the heading of the message, never the verdict. */
  lemma KindOnlyChangesHeading(cost: int, mode: GameMode, speed: GameSpeed, cash: int)
    ensures CheckActionAllowed(Build, cost, mode, speed, cash).Allowed?
            == CheckActionAllowed(Remove, cost, mode, speed, cash).Allowed?
  {
  }

  // ---------------------------------------------------------------------
  // The pending game action.

  /** The game actions the main loop runs between frames. */
  datatype GameControlAction = ActionNone | ActionNewGame | ActionLoadGame | ActionSaveGame | ActionQuit

  /** What running an action did, in place of the file and world code it calls. */
  datatype Performed = NewLevelStarted | GameLoaded(file: string) | GameSaved(file: string) | Stopped

  /** The game mode manager: the mode the program is in. */
  class GameModeManager {
    var gameMode: GameMode

    constructor ()
      ensures gameMode == ModeNone
    {
      gameMode := ModeNone;
    }

    method SetGameMode(newMode: GameMode)
      modifies this
      ensures gameMode == newMode
    {
      gameMode := newMode;
    }

    predicate InPlayMode()
      reads this
    {
      gameMode == ModePlay
    }
  }

  class GameControl {
    var speed: GameSpeed
    var running: bool
    var nextAction: GameControlAction
    var fname: string

    constructor ()
      ensures speed == Speed1 && !running && nextAction == ActionNone && fname == ""
    {
      speed := Speed1;
      running := false;
      nextAction := ActionNone;
      fname := "";
    }

    /**
     * Starts the game: a new game when no file is given, otherwise the
     * given file (or a new game when it does not load), and runs it.
     */
    method Initialize(file: string, haveFile: bool, loadOk: bool, modes: GameModeManager) returns (done: Performed)
      modifies this, modes
      ensures running && nextAction == ActionNone && speed == Speed1 && modes.gameMode == ModePlay
      ensures fname == if haveFile then file else old(fname)
      ensures done == if haveFile && loadOk then GameLoaded(file) else NewLevelStarted
    {
      speed := Speed1;
      running := true;
      if !haveFile {
        NewGame();
      } else {
        LoadGame(file);
      }
      done := RunAction(loadOk, modes);
    }

    /**
     * Runs the pending action and clears it. A new game, or a load that
     * fails (`loadOk` is what loading the file reported), sets up a new
     * level; either way the level starts in play mode at normal speed.
     */
    method RunAction(loadOk: bool, modes: GameModeManager) returns (done: Performed)
      requires nextAction != ActionNone
      modifies this, modes
      ensures nextAction == ActionNone
      ensures fname == old(fname)
      ensures running == (old(running) && old(nextAction) != ActionQuit)
      ensures old(nextAction) == ActionNewGame ==> done == NewLevelStarted
      ensures old(nextAction) == ActionLoadGame ==> done == if loadOk then GameLoaded(fname) else NewLevelStarted
      ensures old(nextAction) == ActionNewGame || old(nextAction) == ActionLoadGame ==>
                speed == Speed1 && modes.gameMode == ModePlay
      ensures old(nextAction) == ActionSaveGame ==> done == GameSaved(fname)
      ensures old(nextAction) == ActionQuit ==> done == Stopped
      ensures old(nextAction) == ActionSaveGame || old(nextAction) == ActionQuit ==>
                speed == old(speed) && modes.gameMode == old(modes.gameMode)
    {
      match nextAction {
        case ActionNewGame =>
          done := StartNewOrLoaded(false, loadOk, modes);
        case ActionLoadGame =>
          done := StartNewOrLoaded(true, loadOk, modes);
        case ActionSaveGame =>
          done := GameSaved(fname);
        case ActionQuit =>
          running := false;
          done := Stopped;
      }
      nextAction := ActionNone;
    }

    /** Shuts the level down, loads the file or sets up a new level, and starts it. */
    method StartNewOrLoaded(load: bool, loadOk: bool, modes: GameModeManager) returns (done: Performed)
      modifies this`speed, modes
      ensures done == if load && loadOk then GameLoaded(fname) else NewLevelStarted
      ensures speed == Speed1 && modes.gameMode == ModePlay
    {
      modes.SetGameMode(ModeNone);
      if !load || !loadOk {
        done := NewLevelStarted;
      } else {
        done := GameLoaded(fname);
      }
      modes.SetGameMode(ModePlay);
      speed := Speed1;
    }

    method NewGame()
      modifies this`nextAction
      ensures nextAction == ActionNewGame
    {
      nextAction := ActionNewGame;
    }

    method LoadGame(file: string)
      modifies this`fname, this`nextAction
      ensures fname == file && nextAction == ActionLoadGame
    {
      fname := file;
      nextAction := ActionLoadGame;
    }

    method SaveGame(file: string)
      modifies this`fname, this`nextAction
      ensures fname == file && nextAction == ActionSaveGame
    {
      fname := file;
      nextAction := ActionSaveGame;
    }

    method QuitGame()
      modifies this`nextAction
      ensures nextAction == ActionQuit
    {
      nextAction := ActionQuit;
    }
  }
}
