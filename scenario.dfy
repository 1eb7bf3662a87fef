/**
 * The scenario: its settings, its top-level objective and its SCNO pattern.
 *
 * The SCNO pattern has had three layouts. Version 1 has no description and
 * no entrance-fee flag, versions 1 and 2 still hold the long-gone initial
 * money and initial loan between the guest limit and the maximum loan, and
 * version 3 is what the program saves. A version 0 pattern stands for "no
 * scenario saved" and loads the default scenario; anything newer than 3 is
 * refused.
 *
 * The localized default texts, the random draws of the default scenario and
 * its compressed deadline date come from outside and are inputs here.
 */
module Scenarios {
  import opened LoadErrors
  import opened PatternStream
  import opened Objectives
  import opened ObjectiveRoundTrip
  import ObjectiveStorage

  const CURRENT_VERSION_SCNO: uint32 := 3

  /** An objective known to be a container: the type of `Scenario::objective`. */
  type ContainerObjective = o: Objective | o.kind.Container?
    witness Objective(Common(false, 0, 0), Container(TIMEOUT_NONE, 0, []))

  /** The settings a scenario saves. Numbers are as wide as the program's fields; the pattern truncates them. */
  datatype ScenarioData = ScenarioData(
    name: string,
    descr: string,
    spawnLowest: int,
    spawnHighest: int,
    maxGuests: int,
    maxLoan: int,
    interest: int,
    allowEntranceFee: bool,
    objective: ContainerObjective)

  /**
   * What the default scenario takes from outside: the localized name and
   * description, the two draws of `Random::Uniform` and the compressed
   * date of 31 October, year 1.
   */
  datatype Defaults = Defaults(name: string, descr: string, guestDraw: nat, ratingDraw: nat, deadline: uint32)

  /** `Uniform(n)` draws below `n`. */
  type ScenarioDefaults = d: Defaults | d.guestDraw < 120 && d.ratingDraw < 30
    witness Defaults([], [], 0, 0, 0)

  /** An objective as its constructor leaves it: not fulfilled, no drop policy. */
  function Fresh(kind: Kind): Objective
  {
    Objective(Common(false, 0, 0), kind)
  }

  /** `SetDefaultScenario`: fixed settings and an "exact date" container of a guests and a rating goal. */
  function DefaultScenario(dflt: ScenarioDefaults): (d: ScenarioData)
    ensures d.objective.kind.timeoutPolicy == TIMEOUT_EXACT && |d.objective.kind.children| == 2
            && d.objective.kind.children[0].kind.Guests?
            && 60 <= d.objective.kind.children[0].kind.nrGuests < 180
            && d.objective.kind.children[1].kind.ParkRating?
            && 500 <= d.objective.kind.children[1].kind.rating < 800
            && d.objective.kind.children[1].kind.rating % 10 == 0
    ensures d.spawnLowest <= d.spawnHighest && d.allowEntranceFee
  {
    ScenarioData(dflt.name, dflt.descr, 200, 600, 3000, 3000000, 25, true,
      Fresh(Container(TIMEOUT_EXACT, dflt.deadline, [
        Fresh(Guests(dflt.guestDraw + 60)),
        Fresh(ParkRating(500 + dflt.ratingDraw * 10))])))
  }

  // ---------------------------------------------------------------------
  // The three layouts of the SCNO pattern.

  /** The numbers that fit the fields of the pattern, and an objective tree that can be saved. */
  predicate Saveable(d: ScenarioData)
  {
    && 0 <= d.spawnLowest < 0x1_0000 && 0 <= d.spawnHighest < 0x1_0000
    && 0 <= d.maxGuests < 0x1_0000_0000 && 0 <= d.maxLoan < 0x1_0000_0000
    && 0 <= d.interest < 0x1_0000
    && WellFormed(d.objective)
  }

  /** The settings after the objective, as they are read back (the flag read as a byte or implied). */
  datatype Numbers = Numbers(spawnLowest: uint16, spawnHighest: uint16, maxGuests: uint32,
                             maxLoan: uint32, interest: uint16, allowEntranceFee: bool)

  /** The numbers of `d` as the pattern holds them, and the flag as a pattern of `version` gives it. */
  function NumbersOf(d: ScenarioData, version: uint32): Numbers
  {
    Numbers(Trunc16(d.spawnLowest), Trunc16(d.spawnHighest), Trunc32(d.maxGuests),
            Trunc32(d.maxLoan), Trunc16(d.interest), version == 1 || d.allowEntranceFee)
  }

  /** The name and, from version 2 on, the description, as the pattern holds them. */
  function Titles(d: ScenarioData, version: uint32): seq<Token>
  {
    [Text(d.name)] + (if version >= 2 then [Text(d.descr)] else [])
  }

  /**
   * The rest of the SCNO pattern of `version` after the objective;
   * `money` and `loan` are the two legacy longs of versions 1 and 2.
   */
  function EncodeNumbers(d: ScenarioData, version: uint32, money: uint32, loan: uint32): seq<Token>
  {
    [Word(Trunc16(d.spawnLowest)), Word(Trunc16(d.spawnHighest)), Long(Trunc32(d.maxGuests))]
    + (if version <= 2 then [Long(money), Long(loan)] else [])
    + [Long(Trunc32(d.maxLoan)), Word(Trunc16(d.interest))]
    + (if version >= 2 then [Byte(if d.allowEntranceFee then 1 else 0)] else [])
    + [End]
  }

  /** The SCNO pattern of `version` after its start token. */
  function EncodeBody(d: ScenarioData, version: uint32, money: uint32, loan: uint32): seq<Token>
  {
    Titles(d, version) + Encode(d.objective) + EncodeNumbers(d, version, money, loan)
  }

  /** The SCNO pattern of `version` for the settings `d`. */
  function EncodeLayout(d: ScenarioData, version: uint32, money: uint32, loan: uint32): seq<Token>
  {
    [Start("SCNO", version)] + EncodeBody(d, version, money, loan)
  }

  /** What `Scenario::Save` writes: always the current layout. */
  function EncodeScenario(d: ScenarioData): (ts: seq<Token>)
    ensures |ts| > 0 && ts[0] == Start("SCNO", CURRENT_VERSION_SCNO)
  {
    EncodeLayout(d, CURRENT_VERSION_SCNO, 0, 0)
  }

  /** The description: read from version 2 on, the default text before. */
  function ReadDescr(ts: seq<Token>, p: nat, version: uint32, dflt: ScenarioDefaults): (d: Decoded<string>)
    requires p <= |ts|
    ensures d.Ok? ==> p <= d.value.1 <= |ts|
    ensures version < 2 ==> d == Ok((dflt.descr, p))
  {
    if version >= 2 then ReadText(ts, p) else Ok((dflt.descr, p))
  }

  /** The initial money and loan of versions 1 and 2, read and dropped. */
  function SkipLegacyLongs(ts: seq<Token>, p: nat, version: uint32): (d: Decoded<()>)
    requires p <= |ts|
    ensures d.Ok? ==> p <= d.value.1 <= |ts|
    ensures version > 2 ==> d == Ok(((), p))
  {
    if version <= 2 then
      var money :- ReadLong(ts, p);
      var loan :- ReadLong(ts, money.1);
      Ok(((), loan.1))
    else Ok(((), p))
  }

  /** The entrance-fee flag: version 1 always allows the fee and reads nothing. */
  function ReadAllowFee(ts: seq<Token>, p: nat, version: uint32): (d: Decoded<bool>)
    requires p <= |ts|
    ensures d.Ok? ==> p <= d.value.1 <= |ts|
    ensures version == 1 ==> d == Ok((true, p))
  {
    if version == 1 then Ok((true, p))
    else
      var b :- ReadByte(ts, p);
      Ok((b.0 != 0, b.1))
  }

  /** The settings after the objective, up to and including the end of the pattern. */
  function DecodeNumbers(ts: seq<Token>, p: nat, version: uint32): (d: Decoded<Numbers>)
    requires p <= |ts|
    ensures d.Ok? ==> p < d.value.1 <= |ts|
  {
    var lowest :- ReadWord(ts, p);
    var highest :- ReadWord(ts, lowest.1);
    var guests :- ReadLong(ts, highest.1);
    var legacy :- SkipLegacyLongs(ts, guests.1, version);
    var loan :- ReadLong(ts, legacy.1);
    var interest :- ReadWord(ts, loan.1);
    var allow :- ReadAllowFee(ts, interest.1, version);
    var e :- ReadEnd(ts, allow.1);
    Ok((Numbers(lowest.0, highest.0, guests.0, loan.0, interest.0, allow.0), e.1))
  }

  /** A pattern of version 1 to 3 after its start token. */
  function DecodeBody(ts: seq<Token>, p: nat, version: uint32, dflt: ScenarioDefaults): (d: Decoded<ScenarioData>)
    requires p <= |ts|
    ensures d.Ok? ==> p < d.value.1 <= |ts|
  {
    var name :- ReadText(ts, p);
    var descr :- ReadDescr(ts, name.1, version, dflt);
    var objective :- DecodeContainer(ts, descr.1);
    var n :- DecodeNumbers(ts, objective.1, version);
    Ok((WithNumbers(name.0, descr.0, objective.0, n.0), n.1))
  }

  /** `Scenario::Load`, on the stream: the settings and the position after the pattern. */
  function DecodeScenario(ts: seq<Token>, p: nat, dflt: ScenarioDefaults): (d: Decoded<ScenarioData>)
    requires p <= |ts|
    ensures d.Ok? ==> p < d.value.1 <= |ts|
  {
    var v :- ReadStart(ts, p, "SCNO");
    if v.0 == 0 then
      var e :- ReadEnd(ts, v.1);
      Ok((DefaultScenario(dflt), e.1))
    else if v.0 <= CURRENT_VERSION_SCNO then
      DecodeBody(ts, v.1, v.0, dflt)
    else
      RejectVersion(v.0, CURRENT_VERSION_SCNO)
  }

  /** What loading a pattern of `version` makes of the saved settings. */
  function Upgraded(d: ScenarioData, version: uint32, dflt: ScenarioDefaults): ScenarioData
  {
    if version == 1 then d.(descr := dflt.descr, allowEntranceFee := true) else d
  }

  // ---------------------------------------------------------------------
  // Properties of the layouts.

  lemma NumbersLoad(ts: seq<Token>, p: nat, d: ScenarioData, version: uint32, money: uint32, loan: uint32)
    requires 1 <= version <= 3
    requires Occurs(ts, p, EncodeNumbers(d, version, money, loan))
    ensures DecodeNumbers(ts, p, version)
         == Ok((NumbersOf(d, version), p + |EncodeNumbers(d, version, money, loan)|))
  {
    var front := FrontOf(d, version, money, loan);
    var back := BackOf(d, version);
    assert EncodeNumbers(d, version, money, loan) == front + back;
    OccursConcat(ts, p, front, back);
    FrontLoads(ts, p, d, version, money, loan);
    BackLoads(ts, p + |front|, d, version);
    NumbersFromParts(ts, p, version, NumbersOf(d, version), p + |front|, p + |front| + 2 + |back| - 3,
                     p + |front| + |back|);
  }

  /** The numbers up to the legacy longs, as `EncodeNumbers` writes them. */
  function FrontOf(d: ScenarioData, version: uint32, money: uint32, loan: uint32): seq<Token>
  {
    [Word(Trunc16(d.spawnLowest)), Word(Trunc16(d.spawnHighest)), Long(Trunc32(d.maxGuests))]
    + (if version <= 2 then [Long(money), Long(loan)] else [])
  }

  /** The numbers from the maximum loan to the end of the pattern, as `EncodeNumbers` writes them. */
  function BackOf(d: ScenarioData, version: uint32): seq<Token>
  {
    [Long(Trunc32(d.maxLoan)), Word(Trunc16(d.interest))]
    + (if version >= 2 then [Byte(if d.allowEntranceFee then 1 else 0)] else [])
    + [End]
  }

  lemma FrontLoads(ts: seq<Token>, p: nat, d: ScenarioData, version: uint32, money: uint32, loan: uint32)
    requires 1 <= version <= 3
    requires Occurs(ts, p, FrontOf(d, version, money, loan))
    ensures p + 3 <= |ts|
    ensures ReadWord(ts, p) == Ok((Trunc16(d.spawnLowest), p + 1))
    ensures ReadWord(ts, p + 1) == Ok((Trunc16(d.spawnHighest), p + 2))
    ensures ReadLong(ts, p + 2) == Ok((Trunc32(d.maxGuests), p + 3))
    ensures SkipLegacyLongs(ts, p + 3, version) == Ok(((), p + |FrontOf(d, version, money, loan)|))
  {
    var e := [Word(Trunc16(d.spawnLowest)), Word(Trunc16(d.spawnHighest)), Long(Trunc32(d.maxGuests))];
    var f: seq<Token> := if version <= 2 then [Long(money), Long(loan)] else [];
    OccursConcat(ts, p, e, f);
    OccursAt(ts, p, e, 0);
    OccursAt(ts, p, e, 1);
    OccursAt(ts, p, e, 2);
    if version <= 2 {
      OccursAt(ts, p + 3, f, 0);
      OccursAt(ts, p + 3, f, 1);
    }
  }

  lemma BackLoads(ts: seq<Token>, p: nat, d: ScenarioData, version: uint32)
    requires 1 <= version <= 3
    requires Occurs(ts, p, BackOf(d, version))
    ensures p + 2 <= |ts| && 3 <= |BackOf(d, version)|
    ensures ReadLong(ts, p) == Ok((Trunc32(d.maxLoan), p + 1))
    ensures ReadWord(ts, p + 1) == Ok((Trunc16(d.interest), p + 2))
    ensures ReadAllowFee(ts, p + 2, version)
         == Ok((version == 1 || d.allowEntranceFee, p + |BackOf(d, version)| - 1))
    ensures ReadEnd(ts, p + |BackOf(d, version)| - 1) == Ok(((), p + |BackOf(d, version)|))
  {
    var g := [Long(Trunc32(d.maxLoan)), Word(Trunc16(d.interest))];
    var h: seq<Token> := if version >= 2 then [Byte(if d.allowEntranceFee then 1 else 0)] else [];
    OccursConcat(ts, p, g + h, [End]);
    OccursConcat(ts, p, g, h);
    OccursAt(ts, p, g, 0);
    OccursAt(ts, p, g, 1);
    if version >= 2 {
      OccursAt(ts, p + 2, h, 0);
    }
    OccursAt(ts, p + 2 + |h|, [End], 0);
  }

  /** Reading the numbers item by item. */
  lemma NumbersFromParts(ts: seq<Token>, p: nat, version: uint32, n: Numbers, pg: nat, ph: nat, pe: nat)
    requires p + 3 <= |ts|
    requires ReadWord(ts, p) == Ok((n.spawnLowest, p + 1))
    requires ReadWord(ts, p + 1) == Ok((n.spawnHighest, p + 2))
    requires ReadLong(ts, p + 2) == Ok((n.maxGuests, p + 3))
    requires SkipLegacyLongs(ts, p + 3, version) == Ok(((), pg))
    requires ReadLong(ts, pg) == Ok((n.maxLoan, pg + 1))
    requires ReadWord(ts, pg + 1) == Ok((n.interest, pg + 2))
    requires ReadAllowFee(ts, pg + 2, version) == Ok((n.allowEntranceFee, ph))
    requires ReadEnd(ts, ph) == Ok(((), pe))
    ensures DecodeNumbers(ts, p, version) == Ok((n, pe))
  {
  }

  /** A layout is its start token followed by its body. */
  lemma LayoutSplits(ts: seq<Token>, p: nat, d: ScenarioData, version: uint32, money: uint32, loan: uint32)
    requires Occurs(ts, p, EncodeLayout(d, version, money, loan))
    ensures p < |ts| && ReadStart(ts, p, "SCNO") == Ok((version, p + 1))
    ensures Occurs(ts, p + 1, EncodeBody(d, version, money, loan))
    ensures |EncodeLayout(d, version, money, loan)| == 1 + |EncodeBody(d, version, money, loan)|
  {
    var body := EncodeBody(d, version, money, loan);
    OccursConcat(ts, p, [Start("SCNO", version)], body);
    OccursAt(ts, p, [Start("SCNO", version)], 0);
  }

  /** The body of a layout is its titles, the objective and the numbers, one after the other. */
  lemma BodySplits(ts: seq<Token>, p: nat, d: ScenarioData, version: uint32, money: uint32, loan: uint32)
    requires Occurs(ts, p, EncodeBody(d, version, money, loan))
    ensures Occurs(ts, p, Titles(d, version))
    ensures Occurs(ts, p + |Titles(d, version)|, Encode(d.objective))
    ensures Occurs(ts, p + |Titles(d, version)| + |Encode(d.objective)|, EncodeNumbers(d, version, money, loan))
    ensures |EncodeBody(d, version, money, loan)|
         == |Titles(d, version)| + |Encode(d.objective)| + |EncodeNumbers(d, version, money, loan)|
  {
    var a, obj := Titles(d, version), Encode(d.objective);
    OccursConcat(ts, p, a + obj, EncodeNumbers(d, version, money, loan));
    OccursConcat(ts, p, a, obj);
  }

  /** Reading a body whose titles are in place and whose objective and numbers decode. */
  lemma BodyFromTitles(ts: seq<Token>, p: nat, d: ScenarioData, version: uint32, dflt: ScenarioDefaults,
                       po: nat, pn: nat, pe: nat)
    requires Saveable(d) && 1 <= version <= 3
    requires Occurs(ts, p, Titles(d, version)) && po == p + |Titles(d, version)| <= |ts|
    requires DecodeContainer(ts, po) == Ok((d.objective, pn))
    requires DecodeNumbers(ts, pn, version) == Ok((NumbersOf(d, version), pe))
    ensures DecodeBody(ts, p, version, dflt) == Ok((Upgraded(d, version, dflt), pe))
  {
    TitlesLoad(ts, p, d, version, dflt);
    var up := Upgraded(d, version, dflt);
    BodyFromParts(ts, p, version, dflt, d.name, up.descr, d.objective, NumbersOf(d, version),
                  p + 1, po, pn, pe);
    UpgradedFromNumbers(d, version, dflt);
  }

  lemma TitlesLoad(ts: seq<Token>, p: nat, d: ScenarioData, version: uint32, dflt: ScenarioDefaults)
    requires 1 <= version && Occurs(ts, p, Titles(d, version))
    ensures p < |ts| && ReadText(ts, p) == Ok((d.name, p + 1))
    ensures ReadDescr(ts, p + 1, version, dflt)
         == Ok((Upgraded(d, version, dflt).descr, p + |Titles(d, version)|))
  {
    var a := Titles(d, version);
    OccursFits(ts, p, a);
    OccursAt(ts, p, a, 0);
    if version >= 2 {
      OccursAt(ts, p, a, 1);
    }
  }

  /** The numbers of a saveable `d`, read back, with the description a pattern of `version` gives. */
  lemma UpgradedFromNumbers(d: ScenarioData, version: uint32, dflt: ScenarioDefaults)
    requires Saveable(d) && 1 <= version
    ensures WithNumbers(d.name, Upgraded(d, version, dflt).descr, d.objective, NumbersOf(d, version))
         == Upgraded(d, version, dflt)
  {
  }

  /** A pattern of version 1 to 3 decodes as its body does. */
  lemma ScenarioFromBody(ts: seq<Token>, p: nat, version: uint32, dflt: ScenarioDefaults,
                         body: ScenarioData, pe: nat)
    requires p < |ts| && 1 <= version <= CURRENT_VERSION_SCNO
    requires ReadStart(ts, p, "SCNO") == Ok((version, p + 1))
    requires DecodeBody(ts, p + 1, version, dflt) == Ok((body, pe))
    ensures DecodeScenario(ts, p, dflt) == Ok((body, pe))
  {
  }

  /** The settings that a name, a description, an objective and the numbers after it make up. */
  function WithNumbers(name: string, descr: string, objective: ContainerObjective, n: Numbers): ScenarioData
  {
    ScenarioData(name, descr, n.spawnLowest, n.spawnHighest, n.maxGuests, n.maxLoan, n.interest,
                 n.allowEntranceFee, objective)
  }

  /** Reading the body of the pattern part by part. */
  lemma BodyFromParts(ts: seq<Token>, p: nat, version: uint32, dflt: ScenarioDefaults,
                      name: string, descr: string, objective: Objective, n: Numbers,
                      pd: nat, po: nat, pn: nat, pe: nat)
    requires p <= |ts|
    requires ReadText(ts, p) == Ok((name, pd))
    requires ReadDescr(ts, pd, version, dflt) == Ok((descr, po))
    requires DecodeContainer(ts, po) == Ok((objective, pn))
    requires DecodeNumbers(ts, pn, version) == Ok((n, pe))
    ensures objective.kind.Container?
    ensures DecodeBody(ts, p, version, dflt) == Ok((WithNumbers(name, descr, objective, n), pe))
  {
  }

  // Each layout is proved on its own: with the version fixed, the proof
  // does not have to follow every branch of every layout at once.

  /** `Scenario::Save` followed by `Scenario::Load` gives back every saved setting. */
  lemma ScenarioRoundTrip(ts: seq<Token>, p: nat, d: ScenarioData, dflt: ScenarioDefaults)
    requires Saveable(d) && Occurs(ts, p, EncodeScenario(d))
    ensures DecodeScenario(ts, p, dflt) == Ok((d, p + |EncodeScenario(d)|))
  {
    LayoutSplits(ts, p, d, 3, 0, 0);
    var po := p + 1 + |Titles(d, 3)|;
    var pn := po + |Encode(d.objective)|;
    var pe := p + 1 + |EncodeBody(d, 3, 0, 0)|;
    BodySplits(ts, p + 1, d, 3, 0, 0);
    DecodeEncodedContainer(ts, po, d.objective);
    NumbersLoad(ts, pn, d, 3, 0, 0);
    BodyFromTitles(ts, p + 1, d, 3, dflt, po, pn, pe);
    ScenarioFromBody(ts, p, 3, dflt, d, pe);
  }

  /** A version 2 pattern loads back every setting; the legacy money and loan are dropped. */
  lemma Version2Loads(ts: seq<Token>, p: nat, d: ScenarioData, money: uint32, loan: uint32, dflt: ScenarioDefaults)
    requires Saveable(d) && Occurs(ts, p, EncodeLayout(d, 2, money, loan))
    ensures DecodeScenario(ts, p, dflt) == Ok((d, p + |EncodeLayout(d, 2, money, loan)|))
  {
    LayoutSplits(ts, p, d, 2, money, loan);
    var po := p + 1 + |Titles(d, 2)|;
    var pn := po + |Encode(d.objective)|;
    var pe := p + 1 + |EncodeBody(d, 2, money, loan)|;
    BodySplits(ts, p + 1, d, 2, money, loan);
    DecodeEncodedContainer(ts, po, d.objective);
    NumbersLoad(ts, pn, d, 2, money, loan);
    BodyFromTitles(ts, p + 1, d, 2, dflt, po, pn, pe);
    ScenarioFromBody(ts, p, 2, dflt, d, pe);
  }

  /**
   * A version 1 pattern loads back every setting it holds, with the default
   * description and the entrance fee allowed; the legacy money and loan are
   * dropped.
   */
  lemma Version1Loads(ts: seq<Token>, p: nat, d: ScenarioData, money: uint32, loan: uint32, dflt: ScenarioDefaults)
    requires Saveable(d) && Occurs(ts, p, EncodeLayout(d, 1, money, loan))
    ensures DecodeScenario(ts, p, dflt)
         == Ok((d.(descr := dflt.descr, allowEntranceFee := true), p + |EncodeLayout(d, 1, money, loan)|))
  {
    LayoutSplits(ts, p, d, 1, money, loan);
    var po := p + 1 + |Titles(d, 1)|;
    var pn := po + |Encode(d.objective)|;
    var pe := p + 1 + |EncodeBody(d, 1, money, loan)|;
    BodySplits(ts, p + 1, d, 1, money, loan);
    DecodeEncodedContainer(ts, po, d.objective);
    NumbersLoad(ts, pn, d, 1, money, loan);
    BodyFromTitles(ts, p + 1, d, 1, dflt, po, pn, pe);
    ScenarioFromBody(ts, p, 1, dflt, Upgraded(d, 1, dflt), pe);
  }

  /** A version 0 pattern holds nothing and loads the default scenario. */
  lemma VersionZeroIsDefault(ts: seq<Token>, p: nat, dflt: ScenarioDefaults)
    requires p + 2 <= |ts| && ts[p] == Start("SCNO", 0) && ts[p + 1] == End
    ensures DecodeScenario(ts, p, dflt) == Ok((DefaultScenario(dflt), p + 2))
  {
  }

  /** A version 1 pattern always gets the default description and allows the entrance fee. */
  lemma VersionOneDefaults(ts: seq<Token>, p: nat, dflt: ScenarioDefaults)
    requires p < |ts| && ts[p] == Start("SCNO", 1) && DecodeScenario(ts, p, dflt).Ok?
    ensures DecodeScenario(ts, p, dflt).value.0.descr == dflt.descr
    ensures DecodeScenario(ts, p, dflt).value.0.allowEntranceFee
  {
  }

  /** A pattern newer than version 3 is refused with a version mismatch naming it. */
  lemma NewerScenarioRejected(ts: seq<Token>, p: nat, dflt: ScenarioDefaults)
    requires p < |ts| && ts[p].Start? && ts[p].tag == "SCNO" && ts[p].version > CURRENT_VERSION_SCNO
    ensures DecodeScenario(ts, p, dflt) == Err(VersionMismatch(ts[p].version, CURRENT_VERSION_SCNO))
  {
  }

  /**
   * A scenario loaded from an old layout can be saved again: the layout of
   * `version` loads to the upgraded settings, and wherever `Save` has
   * written those as version 3, that pattern loads back to the same settings.
   */
  lemma LegacyResaves(ts: seq<Token>, p: nat, d: ScenarioData, version: uint32, money: uint32, loan: uint32,
                      dflt: ScenarioDefaults, saved: seq<Token>, q: nat)
    requires Saveable(d) && 1 <= version <= 3
    requires Occurs(ts, p, EncodeLayout(d, version, money, loan))
    requires Occurs(saved, q, EncodeScenario(Upgraded(d, version, dflt)))
    ensures DecodeScenario(ts, p, dflt).Ok? && DecodeScenario(ts, p, dflt).value.0 == Upgraded(d, version, dflt)
    ensures DecodeScenario(saved, q, dflt)
         == Ok((Upgraded(d, version, dflt), q + |EncodeScenario(Upgraded(d, version, dflt))|))
  {
    OldLayoutLoads(ts, p, d, version, money, loan, dflt);
    ScenarioRoundTrip(saved, q, Upgraded(d, version, dflt), dflt);
  }

  /** The layout of any version 1 to 3 loads to the upgraded settings. */
  lemma OldLayoutLoads(ts: seq<Token>, p: nat, d: ScenarioData, version: uint32, money: uint32, loan: uint32,
                       dflt: ScenarioDefaults)
    requires Saveable(d) && 1 <= version <= 3
    requires Occurs(ts, p, EncodeLayout(d, version, money, loan))
    ensures DecodeScenario(ts, p, dflt).Ok? && DecodeScenario(ts, p, dflt).value.0 == Upgraded(d, version, dflt)
  {
    if version == 1 {
      Version1Loads(ts, p, d, money, loan, dflt);
    } else if version == 2 {
      Version2Loads(ts, p, d, money, loan, dflt);
    } else {
      CurrentLayoutIgnoresLegacy(d, money, loan);
      ScenarioRoundTrip(ts, p, d, dflt);
    }
  }

  /** The version 3 layout holds no legacy money or loan. */
  lemma CurrentLayoutIgnoresLegacy(d: ScenarioData, money: uint32, loan: uint32)
    ensures EncodeLayout(d, 3, money, loan) == EncodeScenario(d)
  {
    assert EncodeNumbers(d, 3, money, loan) == EncodeNumbers(d, 3, 0, 0);
  }

  // ---------------------------------------------------------------------
  // Loading reads only the tokens of the pattern it loads.

  lemma FrameNumbers(t1: seq<Token>, t2: seq<Token>, p: nat, version: uint32)
    requires p <= |t1| && p <= |t2|
    requires DecodeNumbers(t1, p, version).Ok? && Agree(t1, t2, p, DecodeNumbers(t1, p, version).value.1)
    ensures DecodeNumbers(t2, p, version) == DecodeNumbers(t1, p, version)
  {
    var e := DecodeNumbers(t1, p, version).value.1;
    forall i | p <= i < e
      ensures t1[i] == t2[i]
    {
      AgreeAt(t1, t2, p, e, i);
    }
  }

  lemma FrameBody(t1: seq<Token>, t2: seq<Token>, p: nat, version: uint32, dflt: ScenarioDefaults)
    requires p <= |t1| && p <= |t2|
    requires DecodeBody(t1, p, version, dflt).Ok? && Agree(t1, t2, p, DecodeBody(t1, p, version, dflt).value.1)
    ensures DecodeBody(t2, p, version, dflt) == DecodeBody(t1, p, version, dflt)
  {
    var e := DecodeBody(t1, p, version, dflt).value.1;
    AgreeAt(t1, t2, p, e, p);
    var descr := ReadDescr(t1, p + 1, version, dflt).value;
    if version >= 2 {
      AgreeAt(t1, t2, p, e, p + 1);
    }
    var objective := DecodeContainer(t1, descr.1).value;
    AgreeWithin(t1, t2, p, e, descr.1, objective.1);
    FrameContainer(t1, t2, descr.1);
    AgreeWithin(t1, t2, p, e, objective.1, e);
    FrameNumbers(t1, t2, objective.1, version);
  }

  /** A successful load gives the same result on any stream agreeing with it on the tokens it consumed. */
  lemma FrameScenario(t1: seq<Token>, t2: seq<Token>, p: nat, dflt: ScenarioDefaults)
    requires p <= |t1| && p <= |t2|
    requires DecodeScenario(t1, p, dflt).Ok? && Agree(t1, t2, p, DecodeScenario(t1, p, dflt).value.1)
    ensures DecodeScenario(t2, p, dflt) == DecodeScenario(t1, p, dflt)
  {
    var e := DecodeScenario(t1, p, dflt).value.1;
    AgreeAt(t1, t2, p, e, p);
    if t1[p].version == 0 {
      AgreeAt(t1, t2, p, e, p + 1);
    } else {
      AgreeWithin(t1, t2, p, e, p + 1, e);
      FrameBody(t1, t2, p + 1, t1[p].version, dflt);
    }
  }

  /** A saved scenario cut short anywhere does not load: the loader raises an error instead. */
  lemma TruncatedScenarioFails(d: ScenarioData, dflt: ScenarioDefaults, k: nat)
    requires Saveable(d) && k < |EncodeScenario(d)|
    ensures DecodeScenario(EncodeScenario(d)[..k], 0, dflt).Err?
  {
    var full := EncodeScenario(d);
    var cut := full[..k];
    if DecodeScenario(cut, 0, dflt).Ok? {
      var e := DecodeScenario(cut, 0, dflt).value.1;
      assert cut[0..e] == full[0..e];
      FrameScenario(cut, full, 0, dflt);
      OccursWhole(full);
      ScenarioRoundTrip(full, 0, d, dflt);
      assert false;
    }
  }

  // ---------------------------------------------------------------------
  // Guest spawning.

  /** C++ `/` by 1024: the quotient truncated toward zero. */
  function TruncDiv1024(a: int): (q: int)
    ensures a >= 0 ==> 0 <= 1024 * q <= a < 1024 * (q + 1)
    ensures a < 0 ==> 1024 * (q - 1) < a <= 1024 * q <= 0
  {
    if a >= 0 then a / 1024 else -((-a) / 1024)
  }

  /**
   * `GetSpawnProbability`: the lowest value plus the share of the span
   * that the popularity (out of 1024) gives, returned as an unsigned int.
   */
  function SpawnProbability(lowest: int, highest: int, popularity: int): (r: nat)
    ensures r < 0x1_0000_0000
  {
    SpawnShare(lowest, (highest - lowest) * popularity)
  }

  /** The lowest value plus a product of span and popularity, divided as C++ does and cast to unsigned. */
  function SpawnShare(lowest: int, product: int): (r: nat)
    ensures r < 0x1_0000_0000
  {
    Trunc32(lowest + TruncDiv1024(product))
  }

  /** Both spawn settings fit their 16-bit fields and the popularity is in its range. */
  predicate SpawnInRange(lowest: int, highest: int, popularity: int)
  {
    0 <= lowest < 0x1_0000 && 0 <= highest < 0x1_0000 && 0 <= popularity <= 1024
  }

  /** Multiplying by a non-negative span keeps the order of the popularities. */
  lemma {:induction false} MulMonotone(span: nat, x: nat, y: nat)
    requires x <= y
    ensures span * x <= span * y
    decreases y - x
  {
    if x < y {
      MulMonotone(span, x, y - 1);
      assert span * y == span * (y - 1) + span;
    }
  }

  /** The product of the span and a popularity in range lies between 0 and the span times 1024. */
  lemma MulBounds(span: int, pop: nat)
    requires pop <= 1024
    ensures span >= 0 ==> 0 <= span * pop <= span * 1024
    ensures span < 0 ==> span * 1024 <= span * pop <= 0
  {
    var m: nat := if span >= 0 then span else -span;
    MulMonotone(m, 0, pop);
    MulMonotone(m, pop, 1024);
    if span < 0 {
      assert span * pop == -(m * pop);
      assert span * 1024 == -(m * 1024);
    }
  }

  lemma ShareBetween(lowest: int, highest: int, product: int)
    requires 0 <= lowest < 0x1_0000 && 0 <= highest < 0x1_0000
    requires lowest <= highest ==> 0 <= product <= (highest - lowest) * 1024
    requires highest <= lowest ==> (highest - lowest) * 1024 <= product <= 0
    ensures lowest <= highest ==> lowest <= SpawnShare(lowest, product) <= highest
    ensures highest <= lowest ==> highest <= SpawnShare(lowest, product) <= lowest
  {
  }

  /** With the popularity in its range, the probability lies between the two spawn settings, either way round. */
  lemma SpawnBetween(lowest: int, highest: int, popularity: int)
    ensures SpawnInRange(lowest, highest, popularity) && lowest <= highest
            ==> lowest <= SpawnProbability(lowest, highest, popularity) <= highest
    ensures SpawnInRange(lowest, highest, popularity) && highest <= lowest
            ==> highest <= SpawnProbability(lowest, highest, popularity) <= lowest
    ensures popularity == 0 && 0 <= lowest < 0x1_0000 ==> SpawnProbability(lowest, highest, popularity) == lowest
    ensures SpawnInRange(lowest, highest, popularity) && popularity == 1024
            ==> SpawnProbability(lowest, highest, popularity) == highest
  {
    if popularity == 0 {
      assert (highest - lowest) * popularity == 0;
    }
    if SpawnInRange(lowest, highest, popularity) {
      MulBounds(highest - lowest, popularity);
      ShareBetween(lowest, highest, (highest - lowest) * popularity);
      if popularity == 1024 {
        assert (highest - lowest) * popularity == (highest - lowest) * 1024;
      }
    }
  }

  lemma ShareMonotone(lowest: int, p1: int, p2: int, highest: int)
    requires 0 <= lowest <= highest < 0x1_0000 && 0 <= p1 <= p2 <= (highest - lowest) * 1024
    ensures SpawnShare(lowest, p1) <= SpawnShare(lowest, p2)
  {
  }

  /** A more popular park spawns at least as often, when the highest setting is the higher one. */
  lemma SpawnMonotone(lowest: int, highest: int, pop1: int, pop2: int)
    requires 0 <= lowest <= highest < 0x1_0000 && 0 <= pop1 <= pop2 <= 1024
    ensures SpawnProbability(lowest, highest, pop1) <= SpawnProbability(lowest, highest, pop2)
  {
    var span := highest - lowest;
    MulMonotone(span, pop1, pop2);
    MulBounds(span, pop1);
    MulBounds(span, pop2);
    ShareMonotone(lowest, span * pop1, span * pop2, highest);
  }

  // ---------------------------------------------------------------------
  // The scenario object.

  class Scenario {
    var name: string
    var descr: string
    var spawnLowest: int
    var spawnHighest: int
    var maxGuests: int
    var maxLoan: int
    var interest: int
    var allowEntranceFee: bool
    var objective: ContainerObjective

    /** The settings as one value. */
    function Data(): ScenarioData
      reads this
    {
      ScenarioData(name, descr, spawnLowest, spawnHighest, maxGuests, maxLoan, interest,
                   allowEntranceFee, objective)
    }

    /** `Scenario::SetDefaultScenario`. */
    method SetDefaultScenario(dflt: ScenarioDefaults)
      modifies this
      ensures Data() == DefaultScenario(dflt)
    {
      name := dflt.name;
      descr := dflt.descr;
      spawnLowest := 200;
      spawnHighest := 600;
      maxGuests := 3000;
      maxLoan := 3000000;
      interest := 25;
      allowEntranceFee := true;
      objective := Fresh(Container(TIMEOUT_EXACT, dflt.deadline, [
        Fresh(Guests(dflt.guestDraw + 60)),
        Fresh(ParkRating(500 + dflt.ratingDraw * 10))]));
    }

    /** `Scenario::GetSpawnProbability`. */
    function GetSpawnProbability(popularity: int): (r: nat)
      reads this
      ensures 0 <= spawnLowest <= spawnHighest < 0x1_0000 && 0 <= popularity <= 1024
              ==> spawnLowest <= r <= spawnHighest
      ensures popularity == 0 && 0 <= spawnLowest < 0x1_0000 ==> r == spawnLowest
    {
      SpawnBetween(spawnLowest, spawnHighest, popularity);
      SpawnProbability(spawnLowest, spawnHighest, popularity)
    }

    /** `Scenario::Save`: the current layout, with the numbers truncated to their field widths. */
    method Save(svr: Saver)
      modifies svr
      ensures svr.output == old(svr.output) + EncodeScenario(Data())
      ensures svr.depth == old(svr.depth)
    {
      var d := Data();
      svr.StartPattern("SCNO", CURRENT_VERSION_SCNO);
      svr.PutText(name);
      svr.PutText(descr);
      assert svr.output == old(svr.output) + [Start("SCNO", CURRENT_VERSION_SCNO)] + Titles(d, CURRENT_VERSION_SCNO);
      ObjectiveStorage.Save(svr, objective);
      SaveNumbers(svr, d);
    }

    /**
     * `Scenario::Load`. On success the settings are the decoded ones; after
     * a loading error the program discards the half-loaded game, and the
     * fields are left unspecified.
     */
    method Load(ldr: Loader, dflt: ScenarioDefaults) returns (r: Result<()>)
      requires ldr.Valid()
      modifies this, ldr
      ensures ldr.Valid()
      ensures r.Ok? <==> DecodeScenario(ldr.input, old(ldr.pos), dflt).Ok?
      ensures r.Ok? ==> Data() == DecodeScenario(ldr.input, old(ldr.pos), dflt).value.0
                        && ldr.pos == DecodeScenario(ldr.input, old(ldr.pos), dflt).value.1
                        && ldr.depth == old(ldr.depth)
      ensures r.Err? ==> r.error == DecodeScenario(ldr.input, old(ldr.pos), dflt).error
    {
      var version :- ldr.OpenPattern("SCNO");
      if version == 0 {
        SetDefaultScenario(dflt);
        :- ldr.ClosePattern();
        r := Ok(());
      } else if version <= CURRENT_VERSION_SCNO {
        r := LoadBody(ldr, version, dflt);
      } else {
        r := RejectVersion(version, CURRENT_VERSION_SCNO);
      }
    }

    /** The versions 1 to 3 of `Scenario::Load`, after the start of the pattern. */
    method LoadBody(ldr: Loader, version: uint32, dflt: ScenarioDefaults) returns (r: Result<()>)
      requires ldr.Valid() && ldr.depth > 0
      modifies this, ldr
      ensures ldr.Valid()
      ensures r.Ok? <==> DecodeBody(ldr.input, old(ldr.pos), version, dflt).Ok?
      ensures r.Ok? ==> Data() == DecodeBody(ldr.input, old(ldr.pos), version, dflt).value.0
                        && ldr.pos == DecodeBody(ldr.input, old(ldr.pos), version, dflt).value.1
                        && ldr.depth == old(ldr.depth) - 1
      ensures r.Err? ==> r.error == DecodeBody(ldr.input, old(ldr.pos), version, dflt).error
    {
      var d :- LoadSettings(ldr, version, dflt);
      name, descr, objective := d.name, d.descr, d.objective;
      spawnLowest, spawnHighest, maxGuests := d.spawnLowest, d.spawnHighest, d.maxGuests;
      maxLoan, interest, allowEntranceFee := d.maxLoan, d.interest, d.allowEntranceFee;
      return Ok(());
    }
  }

  /** The reads of versions 1 to 3 of `Scenario::Load`, as one value. */
  method LoadSettings(ldr: Loader, version: uint32, dflt: ScenarioDefaults) returns (r: Result<ScenarioData>)
    requires ldr.Valid() && ldr.depth > 0
    modifies ldr
    ensures ldr.Valid()
    ensures r == ValueOf(DecodeBody(ldr.input, old(ldr.pos), version, dflt))
    ensures r.Ok? ==> ldr.pos == DecodeBody(ldr.input, old(ldr.pos), version, dflt).value.1
                      && ldr.depth == old(ldr.depth) - 1
  {
    ghost var ts := ldr.input;
    var name :- ldr.GetText();
    ghost var pd := ldr.pos;
    var descr := dflt.descr;
    if version >= 2 {
      descr :- ldr.GetText();
    }
    assert ReadDescr(ts, pd, version, dflt) == Ok((descr, ldr.pos));
    ghost var po := ldr.pos;
    var objective :- ObjectiveStorage.LoadContainer(ldr);
    assert DecodeContainer(ts, po) == Ok((objective, ldr.pos));
    var n :- LoadNumbers(ldr, version);
    return Ok(WithNumbers(name, descr, objective, n));
  }

  /** The writes of `Scenario::Save` after the objective, and the end of the pattern. */
  method SaveNumbers(svr: Saver, d: ScenarioData)
    requires svr.depth > 0
    modifies svr
    ensures svr.output == old(svr.output) + EncodeNumbers(d, CURRENT_VERSION_SCNO, 0, 0)
    ensures svr.depth == old(svr.depth) - 1
  {
    svr.PutWord(Trunc16(d.spawnLowest));
    svr.PutWord(Trunc16(d.spawnHighest));
    svr.PutLong(Trunc32(d.maxGuests));
    svr.PutLong(Trunc32(d.maxLoan));
    svr.PutWord(Trunc16(d.interest));
    svr.PutByte(if d.allowEntranceFee then 1 else 0);
    svr.EndPattern();
  }

  /** The reads of `Scenario::Load` after the objective, and the end of the pattern. */
  method LoadNumbers(ldr: Loader, version: uint32) returns (r: Result<Numbers>)
    requires ldr.Valid() && ldr.depth > 0
    modifies ldr
    ensures ldr.Valid()
    ensures r == ValueOf(DecodeNumbers(ldr.input, old(ldr.pos), version))
    ensures r.Ok? ==> ldr.pos == DecodeNumbers(ldr.input, old(ldr.pos), version).value.1
                      && ldr.depth == old(ldr.depth) - 1
  {
    ghost var ts := ldr.input;
    var lowest :- ldr.GetWord();
    var highest :- ldr.GetWord();
    var guests :- ldr.GetLong();
    ghost var pl := ldr.pos;
    if version <= 2 {
      var money :- ldr.GetLong();
      var loan :- ldr.GetLong();
    }
    assert SkipLegacyLongs(ts, pl, version) == Ok(((), ldr.pos));
    var loan :- ldr.GetLong();
    var interest :- ldr.GetWord();
    ghost var pa := ldr.pos;
    var allow := true;
    if version != 1 {
      var fee :- ldr.GetByte();
      allow := fee != 0;
    }
    assert ReadAllowFee(ts, pa, version) == Ok((allow, ldr.pos));
    :- ldr.ClosePattern();
    return Ok(Numbers(lowest, highest, guests, loan, interest, allow));
  }
}
