/**
 * The daily update of the objective tree (`OnNewDay`).
 *
 * Every objective first decides whether it is fulfilled today: a guests
 * objective by the current number of guests, a park-rating objective by the
 * current park rating, a container by all of its children after they have
 * updated themselves, and the empty objective keeps its flag. Then the drop
 * policy runs: with a non-zero `daysAfterDrop`, a fulfilled objective resets
 * its drop counter, and an unfulfilled one may lose the game or send a
 * warning message before its counter goes up by one. A container with a
 * timeout policy can instead end the game with a win or a loss.
 *
 * The game observer's Win/Lose and the inbox message are the events a day
 * step returns; the guest count, the park rating and today's date are its
 * inputs. Objectives are values, so an update returns the new tree.
 */
module ObjectiveDays {
  import opened PatternStream
  import opened Objectives

  /** What a day of objectives tells the rest of the game. */
  datatype Event =
    | Win
    | Lose
    /** The "bad rating" inbox message, carrying the weeks until the park is closed. */
    | BadRatingMessage(weeks: nat)

  /** The state of the park that the objectives look at. */
  datatype World = World(guestCount: nat, parkRating: nat, today: nat)

  /**
   * Which comparison the drop policy uses to decide on losing the game:
   * the one the program has, or the one its message text evidently intends.
   */
  datatype DropRule = AsWritten | Intended

  // ---------------------------------------------------------------------
  // The drop policy of `AbstractObjective::OnNewDay`.

  /**
   * The drop step as the program has it: it loses as soon as the grace
   * period is at least the counter, and otherwise computes the weeks left
   * with unsigned 32-bit subtraction.
   */
  function DropStepAsWritten(c: Common): (r: (Common, seq<Event>))
    ensures r.0.isFulfilled == c.isFulfilled && r.0.daysAfterDrop == c.daysAfterDrop
    ensures |r.1| <= 1
  {
    if c.daysAfterDrop == 0 then (c, [])
    else if c.isFulfilled then (c.(dropCounter := 0), [])
    else
      var left := (c.daysAfterDrop - c.dropCounter) % 0x1_0000_0000;
      var events :=
        if c.daysAfterDrop >= c.dropCounter then [Lose]
        else if left % 7 == 0 then [BadRatingMessage(left / 7)]
        else [];
      (c.(dropCounter := (c.dropCounter + 1) % 0x1_0000_0000), events)
  }

  /**
   * The drop step as intended: the counter counts the unfulfilled days, the
   * game is lost once it reaches the grace period, and every seventh day
   * before that a message says how many weeks are left.
   */
  function DropStep(c: Common): (r: (Common, seq<Event>))
    ensures r.0.isFulfilled == c.isFulfilled && r.0.daysAfterDrop == c.daysAfterDrop
    ensures |r.1| <= 1
  {
    if c.daysAfterDrop == 0 then (c, [])
    else if c.isFulfilled then (c.(dropCounter := 0), [])
    else
      var events :=
        if c.dropCounter >= c.daysAfterDrop then [Lose]
        else if (c.daysAfterDrop - c.dropCounter) % 7 == 0 then [BadRatingMessage((c.daysAfterDrop - c.dropCounter) / 7)]
        else [];
      (c.(dropCounter := (c.dropCounter + 1) % 0x1_0000_0000), events)
  }

  function Drop(rule: DropRule, c: Common): (r: (Common, seq<Event>))
    ensures r.0.isFulfilled == c.isFulfilled && r.0.daysAfterDrop == c.daysAfterDrop
  {
    match rule
    case AsWritten => DropStepAsWritten(c)
    case Intended => DropStep(c)
  }

  /** The three cases of the drop policy's effect on the counter, under either rule. */
  lemma DropCounter(rule: DropRule, c: Common)
    ensures var (c', events) := Drop(rule, c);
      && (c.daysAfterDrop == 0 ==> c' == c && events == [])
      && (c.daysAfterDrop != 0 && c.isFulfilled ==> c' == c.(dropCounter := 0) && events == [])
      && (c.daysAfterDrop != 0 && !c.isFulfilled ==>
            c' == c.(dropCounter := (c.dropCounter + 1) % 0x1_0000_0000))
  {
  }

  /** The two rules differ only in the events: the new state is the same. */
  lemma {:induction false} SameStateUnderBothRules(c: Common)
    ensures DropStepAsWritten(c).0 == DropStep(c).0
  {
  }

  /**
   * As written, an unfulfilled objective whose counter has not passed its
   * grace period loses at once, and never gets a warning message first.
   */
  lemma AsWrittenLosesAtOnce(c: Common)
    requires c.daysAfterDrop > 0 && !c.isFulfilled && c.dropCounter <= c.daysAfterDrop
    ensures DropStepAsWritten(c).1 == [Lose]
  {
  }

  /** The concrete case: two weeks of grace and a fresh counter lose on the first bad day. */
  lemma AsWrittenTwoWeeksGrace()
    ensures DropStepAsWritten(Common(false, 14, 0)).1 == [Lose]
    ensures DropStep(Common(false, 14, 0)).1 == [BadRatingMessage(2)]
  {
  }

  /** Intended: the game is lost exactly when the counter has reached the grace period. */
  lemma IntendedLoses(c: Common)
    requires c.daysAfterDrop > 0 && !c.isFulfilled
    ensures Lose in DropStep(c).1 <==> c.dropCounter >= c.daysAfterDrop
  {
  }

  /** Intended: a message promises exactly the days that are left before the loss. */
  lemma IntendedMessage(c: Common, weeks: nat)
    requires c.daysAfterDrop > 0 && !c.isFulfilled
    requires BadRatingMessage(weeks) in DropStep(c).1
    ensures c.dropCounter + 7 * weeks == c.daysAfterDrop && weeks > 0
  {
  }

  /** `n` unfulfilled days in a row under the intended rule, with all their events. */
  function UnfulfilledDays(c: Common, n: nat): (r: (Common, seq<Event>))
    requires !c.isFulfilled
    ensures !r.0.isFulfilled && r.0.daysAfterDrop == c.daysAfterDrop
    decreases n
  {
    if n == 0 then (c, [])
    else
      var (c1, e1) := DropStep(c);
      var (cn, en) := UnfulfilledDays(c1, n - 1);
      (cn, e1 + en)
  }

  /**
   * Intended: starting from a counter within the grace period, the days
   * until the counter reaches it pass without a loss, and the next one loses.
   */
  lemma {:induction false} GracePeriod(c: Common, n: nat)
    requires c.daysAfterDrop > 0 && !c.isFulfilled && c.dropCounter + n == c.daysAfterDrop
    ensures Lose !in UnfulfilledDays(c, n).1
    ensures UnfulfilledDays(c, n).0.dropCounter == c.daysAfterDrop
    ensures DropStep(UnfulfilledDays(c, n).0).1 == [Lose]
    decreases n
  {
    if n > 0 {
      var (c1, e1) := DropStep(c);
      assert c1.dropCounter == c.dropCounter + 1;
      GracePeriod(c1, n - 1);
      assert Lose !in e1;
    }
  }

  // ---------------------------------------------------------------------
  // The daily step of the whole tree.

  /** Every objective in the list is fulfilled. */
  predicate AllFulfilled(cs: seq<Objective>)
  {
    forall i :: 0 <= i < |cs| ==> cs[i].common.isFulfilled
  }

  /** `b` is `a` after a day: the same variants with the same targets, policies and number of children. */
  predicate SameShape(a: Objective, b: Objective)
  {
    && a.common.daysAfterDrop == b.common.daysAfterDrop
    && match a.kind
       case Container(policy, date, cs) =>
         && b.kind.Container? && b.kind.timeoutPolicy == policy && b.kind.timeoutDate == date
         && |b.kind.children| == |cs|
         && forall i :: 0 <= i < |cs| ==> SameShape(cs[i], b.kind.children[i])
       case _ => b.kind == a.kind
  }

  /**
   * The virtual `OnNewDay` of each variant: the new objective and, in
   * order, the events its children and then it raised.
   */
  function DayStep(o: Objective, w: World, rule: DropRule): (r: (Objective, seq<Event>))
    ensures r.0.common.daysAfterDrop == o.common.daysAfterDrop
    ensures o.kind.Container? ==> r.0.kind.Container? && r.0.common.isFulfilled == AllFulfilled(r.0.kind.children)
    ensures o.kind.Guests? ==> r.0.common.isFulfilled == (w.guestCount >= o.kind.nrGuests)
    ensures o.kind.ParkRating? ==> r.0.common.isFulfilled == (w.parkRating >= o.kind.rating)
    ensures o.kind.NoGoal? ==> r.0.common.isFulfilled == o.common.isFulfilled
    decreases o, 1
  {
    match o.kind
    case NoGoal =>
      var (c, events) := Drop(rule, o.common);
      (Objective(c, NoGoal), events)
    case Guests(n) =>
      var (c, events) := Drop(rule, o.common.(isFulfilled := w.guestCount >= n));
      (Objective(c, o.kind), events)
    case ParkRating(rating) =>
      var (c, events) := Drop(rule, o.common.(isFulfilled := w.parkRating >= rating));
      (Objective(c, o.kind), events)
    case Container(policy, date, cs) =>
      var (cs', childEvents) := ChildrenStep(cs, w, rule);
      var fulfilled := AllFulfilled(cs');
      var c0 := o.common.(isFulfilled := fulfilled);
      var kind' := Container(policy, date, cs');
      if policy == TIMEOUT_BEFORE && fulfilled then
        (Objective(c0, kind'), childEvents + [Win])
      else if policy != TIMEOUT_NONE && date < w.today then
        (Objective(c0, kind'), childEvents + [if fulfilled then Win else Lose])
      else
        var (c1, events) := Drop(rule, c0);
        (Objective(c1, kind'), childEvents + events)
  }

  /** The children of a container, each updated in list order, with their events in that order. */
  function ChildrenStep(cs: seq<Objective>, w: World, rule: DropRule): (r: (seq<Objective>, seq<Event>))
    ensures |r.0| == |cs|
    decreases cs, 0
  {
    if cs == [] then ([], [])
    else
      var first := DayStep(cs[0], w, rule);
      var rest := ChildrenStep(cs[1..], w, rule);
      ([first.0] + rest.0, first.1 + rest.1)
  }

  lemma {:induction false} ChildrenStepSnoc(cs: seq<Objective>, c: Objective, w: World, rule: DropRule)
    ensures ChildrenStep(cs + [c], w, rule)
         == (ChildrenStep(cs, w, rule).0 + [DayStep(c, w, rule).0],
             ChildrenStep(cs, w, rule).1 + DayStep(c, w, rule).1)
  {
    if cs == [] {
      var last := DayStep(c, w, rule);
      assert cs + [c] == [c] && [c][1..] == [];
      assert ChildrenStep([c], w, rule) == ([last.0] + [], last.1 + []);
      assert [last.0] + [] == [] + [last.0] && last.1 + [] == [] + last.1;
    } else {
      var first := DayStep(cs[0], w, rule);
      var rest := ChildrenStep(cs[1..], w, rule);
      var last := DayStep(c, w, rule);
      assert (cs + [c])[0] == cs[0];
      assert (cs + [c])[1..] == cs[1..] + [c];
      ChildrenStepSnoc(cs[1..], c, w, rule);
      assert ChildrenStep(cs + [c], w, rule)
          == ([first.0] + (rest.0 + [last.0]), first.1 + (rest.1 + last.1));
      assert [first.0] + (rest.0 + [last.0]) == ([first.0] + rest.0) + [last.0];
      assert first.1 + (rest.1 + last.1) == (first.1 + rest.1) + last.1;
    }
  }

  /** The `i`-th updated child is the `i`-th child after its own day. */
  lemma {:induction false} ChildrenStepAt(cs: seq<Objective>, w: World, rule: DropRule, i: nat)
    requires i < |cs|
    ensures ChildrenStep(cs, w, rule).0[i] == DayStep(cs[i], w, rule).0
    decreases i
  {
    if i > 0 {
      ChildrenStepAt(cs[1..], w, rule, i - 1);
    }
  }

  /** A day changes flags and counters only: every objective keeps its variant, target and policies. */
  lemma {:induction false} DayStepShape(o: Objective, w: World, rule: DropRule)
    ensures SameShape(o, DayStep(o, w, rule).0)
    decreases o
  {
    match o.kind
    case Container(_, _, cs) =>
      var cs' := DayStep(o, w, rule).0.kind.children;
      forall i | 0 <= i < |cs|
        ensures SameShape(cs[i], cs'[i])
      {
        ChildrenStepAt(cs, w, rule, i);
        DayStepShape(cs[i], w, rule);
      }
    case _ =>
  }

  /** A day keeps the tree well formed. */
  lemma {:induction false} DayStepWellFormed(o: Objective, w: World, rule: DropRule)
    requires WellFormed(o)
    ensures WellFormed(DayStep(o, w, rule).0)
    decreases o
  {
    match o.kind
    case Container(_, _, cs) =>
      var cs' := DayStep(o, w, rule).0.kind.children;
      forall i | 0 <= i < |cs'|
        ensures WellFormed(cs'[i])
      {
        ChildrenStepAt(cs, w, rule, i);
        DayStepWellFormed(cs[i], w, rule);
      }
    case _ =>
  }

  /** A container with a "before" deadline wins on any day its children are all fulfilled. */
  lemma WinsWhenFulfilledBefore(o: Objective, w: World, rule: DropRule)
    requires o.kind.Container? && o.kind.timeoutPolicy == TIMEOUT_BEFORE
    requires AllFulfilled(ChildrenStep(o.kind.children, w, rule).0)
    ensures DayStep(o, w, rule).1 == ChildrenStep(o.kind.children, w, rule).1 + [Win]
  {
  }

  /** Past its deadline, a container with a timeout policy ends the game whatever its drop policy. */
  lemma DeadlinePassed(o: Objective, w: World, rule: DropRule)
    requires o.kind.Container? && o.kind.timeoutPolicy != TIMEOUT_NONE && o.kind.timeoutDate < w.today
    ensures var (o', events) := DayStep(o, w, rule);
      var childEvents := ChildrenStep(o.kind.children, w, rule).1;
      events == childEvents + [if o'.common.isFulfilled then Win else Lose]
      && o'.common.dropCounter == o.common.dropCounter
  {
  }

  /**
   * `OnNewDay` as the program runs it: the container updates its children
   * one at a time and folds their flags into its own with a conjunction.
   */
  method OnNewDay(o: Objective, w: World, rule: DropRule) returns (o': Objective, events: seq<Event>)
    ensures (o', events) == DayStep(o, w, rule)
    decreases o, 1
  {
    match o.kind
    case Container(policy, date, cs) =>
      var fulfilled := true;
      var children: seq<Objective> := [];
      events := [];
      for i := 0 to |cs|
        invariant (children, events) == ChildrenStep(cs[..i], w, rule)
        invariant fulfilled == AllFulfilled(children)
      {
        var child, childEvents := OnNewDay(cs[i], w, rule);
        ChildrenStepSnoc(cs[..i], cs[i], w, rule);
        assert cs[..i + 1] == cs[..i] + [cs[i]];
        assert AllFulfilled(children + [child]) == (AllFulfilled(children) && child.common.isFulfilled) by {
          assert forall j :: 0 <= j < |children| ==> (children + [child])[j] == children[j];
          assert (children + [child])[|children|] == child;
        }
        children := children + [child];
        events := events + childEvents;
        fulfilled := fulfilled && child.common.isFulfilled;
      }
      assert cs[..|cs|] == cs;
      var c := o.common.(isFulfilled := fulfilled);
      if policy == TIMEOUT_BEFORE && fulfilled {
        events := events + [Win];
      } else if policy != TIMEOUT_NONE && date < w.today {
        events := events + [if fulfilled then Win else Lose];
      } else {
        var dropEvents;
        c, dropEvents := DropDay(c, rule);
        events := events + dropEvents;
      }
      o' := Objective(c, Container(policy, date, children));
    case NoGoal =>
      var c, dropEvents := DropDay(o.common, rule);
      o', events := Objective(c, NoGoal), dropEvents;
    case Guests(n) =>
      var c, dropEvents := DropDay(o.common.(isFulfilled := w.guestCount >= n), rule);
      o', events := Objective(c, o.kind), dropEvents;
    case ParkRating(rating) =>
      var c, dropEvents := DropDay(o.common.(isFulfilled := w.parkRating >= rating), rule);
      o', events := Objective(c, o.kind), dropEvents;
  }

  /** `AbstractObjective::OnNewDay`: the early returns, then the decision and the counter increment. */
  method DropDay(c: Common, rule: DropRule) returns (c': Common, events: seq<Event>)
    ensures (c', events) == Drop(rule, c)
  {
    c', events := c, [];
    if c.daysAfterDrop == 0 {
      return;
    }
    if c.isFulfilled {
      c' := c.(dropCounter := 0);
      return;
    }
    var lost := match rule
      case AsWritten => c.daysAfterDrop >= c.dropCounter
      case Intended => c.dropCounter >= c.daysAfterDrop;
    var left := match rule
      case AsWritten => (c.daysAfterDrop - c.dropCounter) % 0x1_0000_0000
      case Intended => if lost then 0 else c.daysAfterDrop - c.dropCounter;
    if lost {
      events := [Lose];
    } else if left % 7 == 0 {
      events := [BadRatingMessage(left / 7)];
    }
    c' := c.(dropCounter := (c.dropCounter + 1) % 0x1_0000_0000);
  }
}
