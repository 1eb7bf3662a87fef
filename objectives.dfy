/**
 * The closed family of scenario objectives and its save/load code.
 *
 * An objective is a container of child objectives, the empty objective,
 * a number-of-guests objective or a park-rating objective; all of them
 * share the fulfilled flag and the drop policy of the abstract objective.
 * Each variant saves its own pattern (OJCN, OJ00, OJGU, OJRT) which nests
 * the common OJAO pattern; a container saves its children as a count
 * followed by (type byte, child pattern) pairs, and loading dispatches on
 * the type byte.
 *
 * Objectives are modelled as values: the program holds them through shared
 * pointers and loads into freshly constructed objects, which a value model
 * reproduces exactly.
 */
module Objectives {
  import opened LoadErrors
  import opened PatternStream

  const CURRENT_VERSION_OJAO: uint32 := 1
  const CURRENT_VERSION_OJCN: uint32 := 1
  const CURRENT_VERSION_OJ00: uint32 := 1
  const CURRENT_VERSION_OJGU: uint32 := 1
  const CURRENT_VERSION_OJRT: uint32 := 1

  /** The discriminants OJT_CONTAINER, OJT_NONE, OJT_GUESTS and OJT_RATING. */
  datatype ObjectiveType = ContainerType | NoneType | GuestsType | RatingType

  /** The byte saved for each discriminant (the enumeration's values, in declaration order). */
  function TypeCode(t: ObjectiveType): uint8
  {
    match t
    case ContainerType => 0
    case NoneType => 1
    case GuestsType => 2
    case RatingType => 3
  }

  /**
   * The dispatch of `LoadObjective`: the discriminant a type byte names, or
   * the "Unknown objective type" error when it names none.
   */
  function ObjectiveTypeOf(code: uint8): (r: Result<ObjectiveType>)
    ensures r.Ok? ==> TypeCode(r.value) == code
    ensures r.Err? ==> r.error == UnknownObjectiveType(code)
    ensures r.Err? <==> forall t: ObjectiveType :: TypeCode(t) != code
  {
    if code == 0 then Ok(ContainerType)
    else if code == 1 then Ok(NoneType)
    else if code == 2 then Ok(GuestsType)
    else if code == 3 then Ok(RatingType)
    else Err(UnknownObjectiveType(code))
  }

  /** The timeout policies of a container (codes of `ObjectiveTimeoutPolicy`, in declaration order). */
  const TIMEOUT_NONE: uint8 := 0
  const TIMEOUT_BEFORE: uint8 := 1
  const TIMEOUT_EXACT: uint8 := 2

  /** The fields every objective has: the fulfilled flag and the drop policy. */
  datatype Common = Common(isFulfilled: bool, daysAfterDrop: uint32, dropCounter: uint32)

  datatype Objective = Objective(common: Common, kind: Kind)

  datatype Kind =
    | Container(timeoutPolicy: uint8, timeoutDate: uint32, children: seq<Objective>)
    | NoGoal
    | Guests(nrGuests: uint32)
    | ParkRating(rating: uint16)

  /** The discriminant of an objective (its `Type()`). */
  function TypeOf(o: Objective): ObjectiveType
  {
    match o.kind
    case Container(_, _, _) => ContainerType
    case NoGoal => NoneType
    case Guests(_) => GuestsType
    case ParkRating(_) => RatingType
  }

  /** Every container holds fewer children than its 32-bit count can say. */
  predicate WellFormed(o: Objective)
  {
    match o.kind
    case Container(_, _, cs) =>
      |cs| < 0x1_0000_0000 && forall i :: 0 <= i < |cs| ==> WellFormed(cs[i])
    case _ => true
  }

  // ---------------------------------------------------------------------
  // What `Save` writes.

  /** `AbstractObjective::Save`. */
  function EncodeAbstract(c: Common): (ts: seq<Token>)
  {
    [Start("OJAO", CURRENT_VERSION_OJAO), Byte(if c.isFulfilled then 1 else 0),
     Long(c.daysAfterDrop), Long(c.dropCounter), End]
  }

  /** The pattern an objective saves for itself (without its type byte). */
  function Encode(o: Objective): seq<Token>
    decreases o, 1
  {
    match o.kind
    case Container(policy, date, cs) =>
      [Start("OJCN", CURRENT_VERSION_OJCN)] + EncodeAbstract(o.common)
      + [Byte(policy), Long(date), Long(Trunc32(|cs|))] + EncodeChildren(cs) + [End]
    case NoGoal =>
      [Start("OJ00", CURRENT_VERSION_OJ00)] + EncodeAbstract(o.common) + [End]
    case Guests(n) =>
      [Start("OJGU", CURRENT_VERSION_OJGU)] + EncodeAbstract(o.common) + [Long(n), End]
    case ParkRating(r) =>
      [Start("OJRT", CURRENT_VERSION_OJRT)] + EncodeAbstract(o.common) + [Word(r), End]
  }

  /** A child as a container saves it: its type byte, then its own pattern. */
  function EncodeTyped(o: Objective): seq<Token>
    decreases o, 2
  {
    [Byte(TypeCode(TypeOf(o)))] + Encode(o)
  }

  function EncodeChildren(cs: seq<Objective>): seq<Token>
    decreases cs, 0
  {
    if cs == [] then [] else EncodeTyped(cs[0]) + EncodeChildren(cs[1..])
  }

  // ---------------------------------------------------------------------
  // What `Load` reads: each decoder returns the value and the position after it.

  /** `AbstractObjective::Load`. */
  function DecodeAbstract(ts: seq<Token>, p: nat): (d: Decoded<Common>)
    ensures d.Ok? ==> p < d.value.1 <= |ts|
  {
    var v :- ReadStart(ts, p, "OJAO");
    if v.0 > CURRENT_VERSION_OJAO then RejectVersion(v.0, CURRENT_VERSION_OJAO)
    else
      var f :- ReadByte(ts, v.1);
      var days :- ReadLong(ts, f.1);
      var counter :- ReadLong(ts, days.1);
      var e :- ReadEnd(ts, counter.1);
      Ok((Common(f.0 != 0, days.0, counter.0), e.1))
  }

  /** `LoadObjective`: a type byte, then the pattern of the variant it names. */
  function DecodeObjective(ts: seq<Token>, p: nat): (d: Decoded<Objective>)
    requires p <= |ts|
    ensures d.Ok? ==> p < d.value.1 <= |ts|
    decreases |ts| - p, 0
  {
    var t :- ReadByte(ts, p);
    var kind :- ObjectiveTypeOf(t.0);
    DecodeAs(ts, t.1, kind)
  }

  /** The virtual `Load` of the variant `kind`. */
  function DecodeAs(ts: seq<Token>, p: nat, kind: ObjectiveType): (d: Decoded<Objective>)
    requires p <= |ts|
    ensures d.Ok? ==> p < d.value.1 <= |ts| && TypeOf(d.value.0) == kind
    decreases |ts| - p, 3
  {
    match kind
    case ContainerType => DecodeContainer(ts, p)
    case NoneType => DecodeNone(ts, p)
    case GuestsType => DecodeGuests(ts, p)
    case RatingType => DecodeRating(ts, p)
  }

  /** `ScenarioObjective::Load`. */
  function DecodeContainer(ts: seq<Token>, p: nat): (d: Decoded<Objective>)
    requires p <= |ts|
    ensures d.Ok? ==> p < d.value.1 <= |ts| && d.value.0.kind.Container?
    decreases |ts| - p, 2
  {
    var v :- ReadStart(ts, p, "OJCN");
    if v.0 > CURRENT_VERSION_OJCN then RejectVersion(v.0, CURRENT_VERSION_OJCN)
    else
      var common :- DecodeAbstract(ts, v.1);
      var policy :- ReadByte(ts, common.1);
      var date :- ReadLong(ts, policy.1);
      var count :- ReadLong(ts, date.1);
      var children :- DecodeChildren(ts, count.1, count.0);
      var e :- ReadEnd(ts, children.1);
      Ok((Objective(common.0, Container(policy.0, date.0, children.0)), e.1))
  }

  /** The counted loop of `ScenarioObjective::Load`: `count` children in file order. */
  function DecodeChildren(ts: seq<Token>, p: nat, count: nat): (d: Decoded<seq<Objective>>)
    requires p <= |ts|
    ensures d.Ok? ==> p <= d.value.1 <= |ts| && |d.value.0| == count
    decreases |ts| - p, 1, count
  {
    if count == 0 then Ok(([], p))
    else
      var first :- DecodeObjective(ts, p);
      var rest :- DecodeChildren(ts, first.1, count - 1);
      Ok(([first.0] + rest.0, rest.1))
  }

  /** `ObjectiveNone::Load`. */
  function DecodeNone(ts: seq<Token>, p: nat): (d: Decoded<Objective>)
    ensures d.Ok? ==> p < d.value.1 <= |ts| && d.value.0.kind == NoGoal
  {
    var v :- ReadStart(ts, p, "OJ00");
    if v.0 > CURRENT_VERSION_OJ00 then RejectVersion(v.0, CURRENT_VERSION_OJ00)
    else
      var common :- DecodeAbstract(ts, v.1);
      var e :- ReadEnd(ts, common.1);
      Ok((Objective(common.0, NoGoal), e.1))
  }

  /** `ObjectiveGuests::Load`. */
  function DecodeGuests(ts: seq<Token>, p: nat): (d: Decoded<Objective>)
    ensures d.Ok? ==> p < d.value.1 <= |ts| && d.value.0.kind.Guests?
  {
    var v :- ReadStart(ts, p, "OJGU");
    if v.0 > CURRENT_VERSION_OJGU then RejectVersion(v.0, CURRENT_VERSION_OJGU)
    else
      var common :- DecodeAbstract(ts, v.1);
      var n :- ReadLong(ts, common.1);
      var e :- ReadEnd(ts, n.1);
      Ok((Objective(common.0, Guests(n.0)), e.1))
  }

  /** `ObjectiveParkRating::Load`. */
  function DecodeRating(ts: seq<Token>, p: nat): (d: Decoded<Objective>)
    ensures d.Ok? ==> p < d.value.1 <= |ts| && d.value.0.kind.ParkRating?
  {
    var v :- ReadStart(ts, p, "OJRT");
    if v.0 > CURRENT_VERSION_OJRT then RejectVersion(v.0, CURRENT_VERSION_OJRT)
    else
      var common :- DecodeAbstract(ts, v.1);
      var r :- ReadWord(ts, common.1);
      var e :- ReadEnd(ts, r.1);
      Ok((Objective(common.0, ParkRating(r.0)), e.1))
  }
}

module ObjectiveRoundTrip {
  import opened LoadErrors
  import opened PatternStream
  import opened Objectives

  /** The tokens `s` stand in `ts` from position `p` on, one after the other. */
  predicate Occurs(ts: seq<Token>, p: nat, s: seq<Token>)
    decreases |s|
  {
    if s == [] then p <= |ts| else p < |ts| && ts[p] == s[0] && Occurs(ts, p + 1, s[1..])
  }

  /** A stream holds its own tail from every position on. */
  lemma {:induction false} OccursTail(ts: seq<Token>, p: nat)
    requires p <= |ts|
    ensures Occurs(ts, p, ts[p..])
    decreases |ts| - p
  {
    if p < |ts| {
      OccursTail(ts, p + 1);
      assert ts[p..][1..] == ts[p + 1..];
    }
  }

  /** A stream holds itself at its start. */
  lemma OccursWhole(ts: seq<Token>)
    ensures Occurs(ts, 0, ts)
  {
    OccursTail(ts, 0);
    assert ts[0..] == ts;
  }

  lemma {:induction false} OccursConcat(ts: seq<Token>, p: nat, a: seq<Token>, b: seq<Token>)
    requires Occurs(ts, p, a + b)
    ensures p + |a| + |b| <= |ts|
    ensures Occurs(ts, p, a) && Occurs(ts, p + |a|, b)
    decreases |a|
  {
    if a == [] {
      assert a + b == b;
      OccursFits(ts, p, b);
    } else {
      assert (a + b)[1..] == a[1..] + b;
      OccursConcat(ts, p + 1, a[1..], b);
    }
  }

  lemma {:induction false} OccursFits(ts: seq<Token>, p: nat, s: seq<Token>)
    requires Occurs(ts, p, s)
    ensures p + |s| <= |ts|
    decreases |s|
  {
    if s != [] {
      OccursFits(ts, p + 1, s[1..]);
    }
  }

  lemma {:induction false} OccursAt(ts: seq<Token>, p: nat, s: seq<Token>, i: nat)
    requires Occurs(ts, p, s) && i < |s|
    ensures p + i < |ts| && ts[p + i] == s[i]
    decreases i
  {
    if i > 0 {
      OccursAt(ts, p + 1, s[1..], i - 1);
    }
  }

  /** The common OJAO pattern loads back what was saved. */
  lemma DecodeEncodedAbstract(ts: seq<Token>, p: nat, c: Common)
    requires Occurs(ts, p, EncodeAbstract(c))
    ensures DecodeAbstract(ts, p) == Ok((c, p + |EncodeAbstract(c)|))
  {
    var enc := EncodeAbstract(c);
    OccursAt(ts, p, enc, 0);
    OccursAt(ts, p, enc, 1);
    OccursAt(ts, p, enc, 2);
    OccursAt(ts, p, enc, 3);
    OccursAt(ts, p, enc, 4);
  }

  /** Every discriminant a container writes is one that `LoadObjective` accepts, naming the same variant. */
  lemma {:induction false} TypeCodeAccepted(t: ObjectiveType)
    ensures ObjectiveTypeOf(TypeCode(t)) == Ok(t)
  {
    match t
    case ContainerType =>
    case NoneType =>
    case GuestsType =>
    case RatingType =>
  }

  /** Saving a well-formed objective and loading its pattern as the same variant gives it back. */
  lemma {:induction false} DecodeEncoded(ts: seq<Token>, p: nat, o: Objective)
    requires WellFormed(o) && Occurs(ts, p, Encode(o))
    ensures DecodeAs(ts, p, TypeOf(o)) == Ok((o, p + |Encode(o)|))
    decreases o, 1
  {
    match o.kind
    case Container(_, _, _) =>
      DecodeEncodedContainer(ts, p, o);
    case NoGoal =>
      DecodeEncodedNone(ts, p, o);
    case Guests(n) =>
      DecodeEncodedGuests(ts, p, o);
    case ParkRating(r) =>
      DecodeEncodedRating(ts, p, o);
  }

  lemma DecodeEncodedNone(ts: seq<Token>, p: nat, o: Objective)
    requires o.kind.NoGoal? && Occurs(ts, p, Encode(o))
    ensures DecodeNone(ts, p) == Ok((o, p + |Encode(o)|))
  {
    var ea := EncodeAbstract(o.common);
    var head := [Start("OJ00", CURRENT_VERSION_OJ00)];
    assert Encode(o) == head + ea + [End];
    OccursConcat(ts, p, head + ea, [End]);
    OccursConcat(ts, p, head, ea);
    OccursAt(ts, p, head, 0);
    OccursAt(ts, p + 6, [End], 0);
    DecodeEncodedAbstract(ts, p + 1, o.common);
  }

  lemma DecodeEncodedGuests(ts: seq<Token>, p: nat, o: Objective)
    requires o.kind.Guests? && Occurs(ts, p, Encode(o))
    ensures DecodeGuests(ts, p) == Ok((o, p + |Encode(o)|))
  {
    var ea := EncodeAbstract(o.common);
    var head := [Start("OJGU", CURRENT_VERSION_OJGU)];
    var tail := [Long(o.kind.nrGuests), End];
    assert Encode(o) == head + ea + tail;
    OccursConcat(ts, p, head + ea, tail);
    OccursConcat(ts, p, head, ea);
    OccursAt(ts, p, head, 0);
    OccursAt(ts, p + 6, tail, 0);
    OccursAt(ts, p + 6, tail, 1);
    DecodeEncodedAbstract(ts, p + 1, o.common);
  }

  lemma DecodeEncodedRating(ts: seq<Token>, p: nat, o: Objective)
    requires o.kind.ParkRating? && Occurs(ts, p, Encode(o))
    ensures DecodeRating(ts, p) == Ok((o, p + |Encode(o)|))
  {
    var ea := EncodeAbstract(o.common);
    var head := [Start("OJRT", CURRENT_VERSION_OJRT)];
    var tail := [Word(o.kind.rating), End];
    assert Encode(o) == head + ea + tail;
    OccursConcat(ts, p, head + ea, tail);
    OccursConcat(ts, p, head, ea);
    OccursAt(ts, p, head, 0);
    OccursAt(ts, p + 6, tail, 0);
    OccursAt(ts, p + 6, tail, 1);
    DecodeEncodedAbstract(ts, p + 1, o.common);
  }

  /** A saved container loads back with the same fields and the same children in the same order. */
  lemma {:induction false} DecodeEncodedContainer(ts: seq<Token>, p: nat, o: Objective)
    requires o.kind.Container? && WellFormed(o) && Occurs(ts, p, Encode(o))
    ensures DecodeContainer(ts, p) == Ok((o, p + |Encode(o)|))
    decreases o, 0
  {
    var Container(policy, date, cs) := o.kind;
    var ea := EncodeAbstract(o.common);
    var ec := EncodeChildren(cs);
    var head := [Start("OJCN", CURRENT_VERSION_OJCN)];
    var mid := [Byte(policy), Long(date), Long(Trunc32(|cs|))];
    assert Encode(o) == head + ea + mid + ec + [End];
    OccursConcat(ts, p, head + ea + mid + ec, [End]);
    OccursConcat(ts, p, head + ea + mid, ec);
    OccursConcat(ts, p, head + ea, mid);
    OccursConcat(ts, p, head, ea);
    OccursAt(ts, p, head, 0);
    OccursAt(ts, p + 6, mid, 0);
    OccursAt(ts, p + 6, mid, 1);
    OccursAt(ts, p + 6, mid, 2);
    OccursAt(ts, p + 9 + |ec|, [End], 0);
    assert ReadStart(ts, p, "OJCN") == Ok((CURRENT_VERSION_OJCN, p + 1));
    DecodeEncodedAbstract(ts, p + 1, o.common);
    assert ReadByte(ts, p + 6) == Ok((policy, p + 7));
    assert ReadLong(ts, p + 7) == Ok((date, p + 8));
    assert ReadLong(ts, p + 8) == Ok((|cs|, p + 9));
    assert forall i :: 0 <= i < |cs| ==> WellFormed(cs[i]);
    DecodeEncodedChildren(ts, p + 9, cs);
    assert ReadEnd(ts, p + 9 + |ec|) == Ok(((), p + 10 + |ec|));
  }

  /** A child saved with its type byte is rebuilt by `LoadObjective` as the same variant. */
  lemma {:induction false} DecodeEncodedTyped(ts: seq<Token>, p: nat, o: Objective)
    requires WellFormed(o) && Occurs(ts, p, EncodeTyped(o))
    ensures DecodeObjective(ts, p) == Ok((o, p + |EncodeTyped(o)|))
    decreases o, 2
  {
    OccursConcat(ts, p, [Byte(TypeCode(TypeOf(o)))], Encode(o));
    OccursAt(ts, p, [Byte(TypeCode(TypeOf(o)))], 0);
    TypeCodeAccepted(TypeOf(o));
    DecodeEncoded(ts, p + 1, o);
  }

  /** A container's children come back in number and in order. */
  lemma {:induction false} DecodeEncodedChildren(ts: seq<Token>, p: nat, cs: seq<Objective>)
    requires forall i :: 0 <= i < |cs| ==> WellFormed(cs[i])
    requires Occurs(ts, p, EncodeChildren(cs))
    ensures DecodeChildren(ts, p, |cs|) == Ok((cs, p + |EncodeChildren(cs)|))
    decreases cs, 0
  {
    if cs != [] {
      OccursConcat(ts, p, EncodeTyped(cs[0]), EncodeChildren(cs[1..]));
      DecodeEncodedTyped(ts, p, cs[0]);
      DecodeEncodedChildren(ts, p + |EncodeTyped(cs[0])|, cs[1..]);
      assert [cs[0]] + cs[1..] == cs;
    }
  }

  /** Save followed by load: a saved objective, read back on its own, is the objective saved. */
  lemma RoundTrip(o: Objective)
    requires WellFormed(o)
    ensures DecodeObjective(EncodeTyped(o), 0) == Ok((o, |EncodeTyped(o)|))
  {
    OccursWhole(EncodeTyped(o));
    DecodeEncodedTyped(EncodeTyped(o), 0, o);
  }

  // ---------------------------------------------------------------------
  // Version gating: a pattern newer than the code is refused outright.

  /** The tag of the pattern each variant saves. */
  function PatternTag(kind: ObjectiveType): string
  {
    match kind
    case ContainerType => "OJCN"
    case NoneType => "OJ00"
    case GuestsType => "OJGU"
    case RatingType => "OJRT"
  }

  /** An OJCN, OJ00, OJGU or OJRT pattern of a version above 1 fails with a version mismatch naming it. */
  lemma NewerObjectiveRejected(ts: seq<Token>, p: nat, kind: ObjectiveType)
    requires p < |ts| && ts[p].Start? && ts[p].tag == PatternTag(kind) && ts[p].version > 1
    ensures DecodeAs(ts, p, kind) == Err(VersionMismatch(ts[p].version, 1))
  {
  }

  /** An OJAO pattern of a version above 1 fails with a version mismatch naming it. */
  lemma NewerAbstractRejected(ts: seq<Token>, p: nat)
    requires p < |ts| && ts[p].Start? && ts[p].tag == "OJAO" && ts[p].version > 1
    ensures DecodeAbstract(ts, p) == Err(VersionMismatch(ts[p].version, 1))
  {
  }

  // ---------------------------------------------------------------------
  // Loading reads only the tokens of the objective it loads.

  /** `t1` and `t2` hold the same tokens at the positions `lo` to `hi` (exclusive). */
  predicate Agree(t1: seq<Token>, t2: seq<Token>, lo: nat, hi: nat)
  {
    lo <= hi <= |t1| && hi <= |t2| && t1[lo..hi] == t2[lo..hi]
  }

  lemma AgreeAt(t1: seq<Token>, t2: seq<Token>, lo: nat, hi: nat, i: nat)
    requires Agree(t1, t2, lo, hi) && lo <= i < hi
    ensures t1[i] == t2[i]
  {
    assert t1[lo..hi][i - lo] == t2[lo..hi][i - lo];
  }

  lemma AgreeWithin(t1: seq<Token>, t2: seq<Token>, lo: nat, hi: nat, lo': nat, hi': nat)
    requires Agree(t1, t2, lo, hi) && lo <= lo' <= hi' <= hi
    ensures Agree(t1, t2, lo', hi')
  {
    forall i | lo' <= i < hi'
      ensures t1[i] == t2[i]
    {
      AgreeAt(t1, t2, lo, hi, i);
    }
    assert forall k :: 0 <= k < hi' - lo' ==> t1[lo'..hi'][k] == t2[lo'..hi'][k];
  }

  lemma FrameAbstract(t1: seq<Token>, t2: seq<Token>, p: nat)
    requires DecodeAbstract(t1, p).Ok? && Agree(t1, t2, p, DecodeAbstract(t1, p).value.1)
    ensures DecodeAbstract(t2, p) == DecodeAbstract(t1, p)
  {
    var e := DecodeAbstract(t1, p).value.1;
    AgreeAt(t1, t2, p, e, p);
    AgreeAt(t1, t2, p, e, p + 1);
    AgreeAt(t1, t2, p, e, p + 2);
    AgreeAt(t1, t2, p, e, p + 3);
    AgreeAt(t1, t2, p, e, p + 4);
  }

  /** A successful load gives the same result on any stream agreeing with it on the tokens it consumed. */
  lemma {:induction false} FrameObjective(t1: seq<Token>, t2: seq<Token>, p: nat)
    requires p <= |t1| && p <= |t2|
    requires DecodeObjective(t1, p).Ok? && Agree(t1, t2, p, DecodeObjective(t1, p).value.1)
    ensures DecodeObjective(t2, p) == DecodeObjective(t1, p)
    decreases |t1| - p, 0
  {
    var e := DecodeObjective(t1, p).value.1;
    AgreeAt(t1, t2, p, e, p);
    var kind := ObjectiveTypeOf(t1[p].b).value;
    AgreeWithin(t1, t2, p, e, p + 1, e);
    FrameAs(t1, t2, p + 1, kind);
  }

  lemma {:induction false} FrameAs(t1: seq<Token>, t2: seq<Token>, p: nat, kind: ObjectiveType)
    requires p <= |t1| && p <= |t2|
    requires DecodeAs(t1, p, kind).Ok? && Agree(t1, t2, p, DecodeAs(t1, p, kind).value.1)
    ensures DecodeAs(t2, p, kind) == DecodeAs(t1, p, kind)
    decreases |t1| - p, 3
  {
    match kind
    case ContainerType =>
      FrameContainer(t1, t2, p);
    case NoneType =>
      FrameNone(t1, t2, p);
    case GuestsType =>
      FrameGuests(t1, t2, p);
    case RatingType =>
      FrameRating(t1, t2, p);
  }

  lemma FrameNone(t1: seq<Token>, t2: seq<Token>, p: nat)
    requires DecodeNone(t1, p).Ok? && Agree(t1, t2, p, DecodeNone(t1, p).value.1)
    ensures DecodeNone(t2, p) == DecodeNone(t1, p)
  {
    var f := DecodeNone(t1, p).value.1;
    AgreeAt(t1, t2, p, f, p);
    var e := DecodeAbstract(t1, p + 1).value.1;
    AgreeWithin(t1, t2, p, f, p + 1, e);
    FrameAbstract(t1, t2, p + 1);
    AgreeAt(t1, t2, p, f, e);
  }

  lemma FrameGuests(t1: seq<Token>, t2: seq<Token>, p: nat)
    requires DecodeGuests(t1, p).Ok? && Agree(t1, t2, p, DecodeGuests(t1, p).value.1)
    ensures DecodeGuests(t2, p) == DecodeGuests(t1, p)
  {
    var f := DecodeGuests(t1, p).value.1;
    AgreeAt(t1, t2, p, f, p);
    var e := DecodeAbstract(t1, p + 1).value.1;
    AgreeWithin(t1, t2, p, f, p + 1, e);
    FrameAbstract(t1, t2, p + 1);
    AgreeAt(t1, t2, p, f, e);
    AgreeAt(t1, t2, p, f, e + 1);
  }

  lemma FrameRating(t1: seq<Token>, t2: seq<Token>, p: nat)
    requires DecodeRating(t1, p).Ok? && Agree(t1, t2, p, DecodeRating(t1, p).value.1)
    ensures DecodeRating(t2, p) == DecodeRating(t1, p)
  {
    var f := DecodeRating(t1, p).value.1;
    AgreeAt(t1, t2, p, f, p);
    var e := DecodeAbstract(t1, p + 1).value.1;
    AgreeWithin(t1, t2, p, f, p + 1, e);
    FrameAbstract(t1, t2, p + 1);
    AgreeAt(t1, t2, p, f, e);
    AgreeAt(t1, t2, p, f, e + 1);
  }

  lemma {:induction false} FrameContainer(t1: seq<Token>, t2: seq<Token>, p: nat)
    requires p <= |t1| && p <= |t2|
    requires DecodeContainer(t1, p).Ok? && Agree(t1, t2, p, DecodeContainer(t1, p).value.1)
    ensures DecodeContainer(t2, p) == DecodeContainer(t1, p)
    decreases |t1| - p, 2
  {
    var g := DecodeContainer(t1, p).value.1;
    AgreeAt(t1, t2, p, g, p);
    var e := DecodeAbstract(t1, p + 1).value.1;
    AgreeWithin(t1, t2, p, g, p + 1, e);
    FrameAbstract(t1, t2, p + 1);
    AgreeAt(t1, t2, p, g, e);
    AgreeAt(t1, t2, p, g, e + 1);
    AgreeAt(t1, t2, p, g, e + 2);
    var count := t1[e + 2].l;
    var f := DecodeChildren(t1, e + 3, count).value.1;
    AgreeWithin(t1, t2, p, g, e + 3, f);
    FrameChildren(t1, t2, e + 3, count);
    AgreeAt(t1, t2, p, g, f);
  }

  lemma {:induction false} FrameChildren(t1: seq<Token>, t2: seq<Token>, p: nat, count: nat)
    requires p <= |t1| && p <= |t2|
    requires DecodeChildren(t1, p, count).Ok? && Agree(t1, t2, p, DecodeChildren(t1, p, count).value.1)
    ensures DecodeChildren(t2, p, count) == DecodeChildren(t1, p, count)
    decreases |t1| - p, 1, count
  {
    if count > 0 {
      var first := DecodeObjective(t1, p).value;
      var rest := DecodeChildren(t1, first.1, count - 1).value;
      assert DecodeChildren(t1, p, count) == Ok(([first.0] + rest.0, rest.1));
      AgreeWithin(t1, t2, p, rest.1, p, first.1);
      FrameObjective(t1, t2, p);
      AgreeWithin(t1, t2, p, rest.1, first.1, rest.1);
      FrameChildren(t1, t2, first.1, count - 1);
    }
  }

  /** A save cut short anywhere does not load: the loader raises an error instead of inventing an objective. */
  lemma TruncatedSaveFails(o: Objective, k: nat)
    requires WellFormed(o) && k < |EncodeTyped(o)|
    ensures DecodeObjective(EncodeTyped(o)[..k], 0).Err?
  {
    var full := EncodeTyped(o);
    var cut := full[..k];
    if DecodeObjective(cut, 0).Ok? {
      FrameObjective(cut, full, 0);
      RoundTrip(o);
      assert false;
    }
  }
}

/**
 * The Load and Save methods of the objectives, working on a Loader or a
 * Saver as the program does, proved against the decoders and encoders.
 */
module ObjectiveStorage {
  import opened LoadErrors
  import opened PatternStream
  import opened Objectives

  /** `AbstractObjective::Save`. */
  method SaveAbstract(svr: Saver, c: Common)
    modifies svr
    ensures svr.output == old(svr.output) + EncodeAbstract(c)
    ensures svr.depth == old(svr.depth)
  {
    svr.StartPattern("OJAO", CURRENT_VERSION_OJAO);
    svr.PutByte(if c.isFulfilled then 1 else 0);
    svr.PutLong(c.daysAfterDrop);
    svr.PutLong(c.dropCounter);
    svr.EndPattern();
  }

  /** The virtual `Save`: each variant writes its own pattern. */
  method Save(svr: Saver, o: Objective)
    modifies svr
    ensures svr.output == old(svr.output) + Encode(o)
    ensures svr.depth == old(svr.depth)
    decreases o, 1
  {
    match o.kind
    case Container(_, _, _) =>
      SaveContainer(svr, o);
    case NoGoal =>
      svr.StartPattern("OJ00", CURRENT_VERSION_OJ00);
      SaveAbstract(svr, o.common);
      svr.EndPattern();
    case Guests(n) =>
      svr.StartPattern("OJGU", CURRENT_VERSION_OJGU);
      SaveAbstract(svr, o.common);
      svr.PutLong(n);
      svr.EndPattern();
    case ParkRating(r) =>
      svr.StartPattern("OJRT", CURRENT_VERSION_OJRT);
      SaveAbstract(svr, o.common);
      svr.PutWord(r);
      svr.EndPattern();
  }

  /** `ScenarioObjective::Save`: the container's own fields, the count, then the children. */
  method SaveContainer(svr: Saver, o: Objective)
    requires o.kind.Container?
    modifies svr
    ensures svr.output == old(svr.output) + Encode(o)
    ensures svr.depth == old(svr.depth)
    decreases o, 0
  {
    var Container(policy, date, cs) := o.kind;
    svr.StartPattern("OJCN", CURRENT_VERSION_OJCN);
    SaveAbstract(svr, o.common);
    svr.PutByte(policy);
    svr.PutLong(date);
    svr.PutLong(Trunc32(|cs|));
    SaveChildren(svr, cs);
    svr.EndPattern();
  }

  /** The loop of `ScenarioObjective::Save`: each child's type byte, then its pattern. */
  method SaveChildren(svr: Saver, cs: seq<Objective>)
    modifies svr
    ensures svr.output == old(svr.output) + EncodeChildren(cs)
    ensures svr.depth == old(svr.depth)
    decreases cs, 0
  {
    for i := 0 to |cs|
      invariant svr.output == old(svr.output) + EncodeChildren(cs[..i])
      invariant svr.depth == old(svr.depth)
    {
      ghost var before := svr.output;
      svr.PutByte(TypeCode(TypeOf(cs[i])));
      Save(svr, cs[i]);
      assert svr.output == before + EncodeTyped(cs[i]);
      EncodeChildrenSnoc(cs[..i], cs[i]);
      assert cs[..i + 1] == cs[..i] + [cs[i]];
    }
    assert cs[..|cs|] == cs;
  }

  lemma {:induction false} EncodeChildrenSnoc(cs: seq<Objective>, c: Objective)
    ensures EncodeChildren(cs + [c]) == EncodeChildren(cs) + EncodeTyped(c)
  {
    if cs == [] {
      assert [c][1..] == [];
    } else {
      assert (cs + [c])[1..] == cs[1..] + [c];
      EncodeChildrenSnoc(cs[1..], c);
    }
  }

  /** `AbstractObjective::Load`. */
  method LoadAbstract(ldr: Loader) returns (r: Result<Common>)
    requires ldr.Valid()
    modifies ldr
    ensures ldr.Valid()
    ensures r == ValueOf(DecodeAbstract(ldr.input, old(ldr.pos)))
    ensures r.Ok? ==> ldr.pos == DecodeAbstract(ldr.input, old(ldr.pos)).value.1
                      && ldr.depth == old(ldr.depth)
  {
    var version :- ldr.OpenPattern("OJAO");
    if version > CURRENT_VERSION_OJAO {
      return RejectVersion(version, CURRENT_VERSION_OJAO);
    }
    var fulfilled :- ldr.GetByte();
    var days :- ldr.GetLong();
    var counter :- ldr.GetLong();
    :- ldr.ClosePattern();
    return Ok(Common(fulfilled != 0, days, counter));
  }

  /** `LoadObjective`: read the discriminant, build that variant, let it load itself. */
  method LoadObjective(ldr: Loader) returns (r: Result<Objective>)
    requires ldr.Valid()
    modifies ldr
    ensures ldr.Valid()
    ensures r == ValueOf(DecodeObjective(ldr.input, old(ldr.pos)))
    ensures r.Ok? ==> ldr.pos == DecodeObjective(ldr.input, old(ldr.pos)).value.1
                      && ldr.depth == old(ldr.depth)
    decreases |ldr.input| - ldr.pos, 0
  {
    var objType :- ldr.GetByte();
    var kind :- ObjectiveTypeOf(objType);
    match kind
    case ContainerType =>
      r := LoadContainer(ldr);
    case NoneType =>
      r := LoadNone(ldr);
    case GuestsType =>
      r := LoadGuests(ldr);
    case RatingType =>
      r := LoadRating(ldr);
  }

  /** `ScenarioObjective::Load`: a fresh list of exactly `count` children, in file order. */
  method LoadContainer(ldr: Loader) returns (r: Result<Objective>)
    requires ldr.Valid()
    modifies ldr
    ensures ldr.Valid()
    ensures r == ValueOf(DecodeContainer(ldr.input, old(ldr.pos)))
    ensures r.Ok? ==> ldr.pos == DecodeContainer(ldr.input, old(ldr.pos)).value.1
                      && ldr.depth == old(ldr.depth)
    decreases |ldr.input| - ldr.pos, 2
  {
    ghost var ts, p0 := ldr.input, ldr.pos;
    var version :- ldr.OpenPattern("OJCN");
    if version > CURRENT_VERSION_OJCN {
      return RejectVersion(version, CURRENT_VERSION_OJCN);
    }
    ghost var pa := ldr.pos;
    var common :- LoadAbstract(ldr);
    assert DecodeAbstract(ts, pa) == Ok((common, ldr.pos));
    var policy :- ldr.GetByte();
    var date :- ldr.GetLong();
    var count :- ldr.GetLong();
    ghost var pc := ldr.pos;
    var children :- LoadChildren(ldr, count);
    assert DecodeChildren(ts, pc, count) == Ok((children, ldr.pos));
    :- ldr.ClosePattern();
    return Ok(Objective(common, Container(policy, date, children)));
  }

  /** The counted loop of `ScenarioObjective::Load`: `count` children appended in file order. */
  method LoadChildren(ldr: Loader, count: nat) returns (r: Result<seq<Objective>>)
    requires ldr.Valid()
    modifies ldr
    ensures ldr.Valid()
    ensures r == ValueOf(DecodeChildren(ldr.input, old(ldr.pos), count))
    ensures r.Ok? ==> ldr.pos == DecodeChildren(ldr.input, old(ldr.pos), count).value.1
                      && ldr.depth == old(ldr.depth)
    decreases |ldr.input| - ldr.pos, 1
  {
    ghost var ts, p0 := ldr.input, ldr.pos;
    var children: seq<Objective> := [];
    var i := count;
    PrependNothing(DecodeChildren(ts, p0, count));
    while i > 0
      invariant ldr.Valid() && p0 <= ldr.pos
      invariant ldr.depth == old(ldr.depth)
      invariant DecodeChildren(ts, p0, count) == Prepend(children, DecodeChildren(ts, ldr.pos, i))
      decreases i
    {
      ghost var pi := ldr.pos;
      var child := LoadObjective(ldr);
      if child.Err? {
        return Err(child.error);
      }
      assert DecodeChildren(ts, pi, i)
          == Prepend([child.value], DecodeChildren(ts, ldr.pos, i - 1));
      PrependTwice(children, [child.value], DecodeChildren(ts, ldr.pos, i - 1));
      children := children + [child.value];
      i := i - 1;
    }
    assert DecodeChildren(ts, ldr.pos, 0) == Ok(([], ldr.pos));
    assert children + [] == children;
    return Ok(children);
  }

  /** Puts already loaded children in front of the rest of a children decoding. */
  function Prepend(done: seq<Objective>, d: Decoded<seq<Objective>>): Decoded<seq<Objective>>
  {
    match d
    case Ok(vp) => Ok((done + vp.0, vp.1))
    case Err(e) => Err(e)
  }

  lemma PrependNothing(d: Decoded<seq<Objective>>)
    ensures Prepend([], d) == d
  {
    if d.Ok? {
      assert [] + d.value.0 == d.value.0;
    }
  }

  lemma PrependTwice(a: seq<Objective>, b: seq<Objective>, d: Decoded<seq<Objective>>)
    ensures Prepend(a, Prepend(b, d)) == Prepend(a + b, d)
  {
    if d.Ok? {
      assert a + (b + d.value.0) == (a + b) + d.value.0;
    }
  }

  /** `ObjectiveNone::Load`. */
  method LoadNone(ldr: Loader) returns (r: Result<Objective>)
    requires ldr.Valid()
    modifies ldr
    ensures ldr.Valid()
    ensures r == ValueOf(DecodeNone(ldr.input, old(ldr.pos)))
    ensures r.Ok? ==> ldr.pos == DecodeNone(ldr.input, old(ldr.pos)).value.1
                      && ldr.depth == old(ldr.depth)
  {
    var version :- ldr.OpenPattern("OJ00");
    if version > CURRENT_VERSION_OJ00 {
      return RejectVersion(version, CURRENT_VERSION_OJ00);
    }
    var common :- LoadAbstract(ldr);
    :- ldr.ClosePattern();
    return Ok(Objective(common, NoGoal));
  }

  /** `ObjectiveGuests::Load`. */
  method LoadGuests(ldr: Loader) returns (r: Result<Objective>)
    requires ldr.Valid()
    modifies ldr
    ensures ldr.Valid()
    ensures r == ValueOf(DecodeGuests(ldr.input, old(ldr.pos)))
    ensures r.Ok? ==> ldr.pos == DecodeGuests(ldr.input, old(ldr.pos)).value.1
                      && ldr.depth == old(ldr.depth)
  {
    var version :- ldr.OpenPattern("OJGU");
    if version > CURRENT_VERSION_OJGU {
      return RejectVersion(version, CURRENT_VERSION_OJGU);
    }
    var common :- LoadAbstract(ldr);
    var n :- ldr.GetLong();
    :- ldr.ClosePattern();
    return Ok(Objective(common, Guests(n)));
  }

  /** `ObjectiveParkRating::Load`. */
  method LoadRating(ldr: Loader) returns (r: Result<Objective>)
    requires ldr.Valid()
    modifies ldr
    ensures ldr.Valid()
    ensures r == ValueOf(DecodeRating(ldr.input, old(ldr.pos)))
    ensures r.Ok? ==> ldr.pos == DecodeRating(ldr.input, old(ldr.pos)).value.1
                      && ldr.depth == old(ldr.depth)
  {
    var version :- ldr.OpenPattern("OJRT");
    if version > CURRENT_VERSION_OJRT {
      return RejectVersion(version, CURRENT_VERSION_OJRT);
    }
    var common :- LoadAbstract(ldr);
    var rating :- ldr.GetWord();
    :- ldr.ClosePattern();
    return Ok(Objective(common, ParkRating(rating)));
  }
}
