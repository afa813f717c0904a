/** strategy/builder.py: validated edits of a draft strategy, and the separate
    full check that execution runs before it commits any capital. */
module Builder {
  import opened Wrappers
  import opened Domain

  const MAX_STRATEGY_LEGS := 10

  /** What the builder reads of a strategy. */
  datatype Draft = Draft(underlying: string, isDraft: bool, allowCalendar: bool, legs: seq<Leg>)

  // --- Checks --------------------------------------------------------------

  function ValidateLeg(leg: Leg, spec: InstrumentSpec): Option<Error>
    requires spec.Valid()
  {
    var c := leg.contract;
    if c.kind.OtherKind? then Some(BadOptionType)
    else if leg.action.OtherAction? then Some(BadAction)
    else if leg.lots <= 0 then Some(BadQuantity)
    else if !IsOption(c.kind) then None
    else if c.strike.None? then Some(StrikeRequired)
    else if !spec.IsValidStrike(c.strike.value) then Some(StrikeOffGrid)
    else None
  }

  function OtherExpiries(legs: seq<Leg>, ignored: Option<nat>): set<int> {
    set l | l in legs && Some(l.id) != ignored :: l.contract.expiry
  }

  function ValidateAgainst(leg: Leg, d: Draft, ignored: Option<nat>): Option<Error> {
    var others := OtherExpiries(d.legs, ignored);
    if leg.contract.underlying != d.underlying then Some(UnderlyingMismatch)
    else if others != {} && leg.contract.expiry !in others && !d.allowCalendar then Some(CalendarNotAllowed)
    else None
  }

  function ValidateEach(legs: seq<Leg>, spec: InstrumentSpec, underlying: string): Option<Error>
    requires spec.Valid()
  {
    if legs == [] then None
    else
      var first := ValidateLeg(legs[0], spec);
      if first.Some? then first
      else if legs[0].contract.underlying != underlying then Some(UnderlyingMismatch)
      else ValidateEach(legs[1..], spec, underlying)
  }

  function Expiries(legs: seq<Leg>): set<int> {
    set l | l in legs :: l.contract.expiry
  }

  /** The gate before execution: None when the strategy passes. */
  function ValidateStrategy(d: Draft): Option<Error> {
    if d.legs == [] then Some(BadQuantity)
    else if |d.legs| > MAX_STRATEGY_LEGS then Some(TooManyLegs)
    else match GetSpec(d.underlying)
      case Raise(error) => Some(error)
      case Ok(spec) =>
        var each := ValidateEach(d.legs, spec, d.underlying);
        if each.Some? then each
        else if |Expiries(d.legs)| > 1 && !d.allowCalendar then Some(CalendarNotAllowed)
        else None
  }

  // --- Edits ---------------------------------------------------------------

  /** The fields an edit passes; None leaves a field as it is. */
  datatype Changes = Changes(
    strike: Option<real>,
    expiry: Option<int>,
    lots: Option<int>,
    action: Option<Action>,
    kind: Option<Kind>)

  /** First position holding `id`, or the length when there is none. */
  function IndexOf(legs: seq<Leg>, id: nat): (i: nat)
    ensures i <= |legs|
    ensures i < |legs| ==> legs[i].id == id
    ensures forall k :: 0 <= k < i ==> legs[k].id != id
  {
    if legs == [] || legs[0].id == id then 0 else 1 + IndexOf(legs[1..], id)
  }

  function Candidate(target: Leg, changes: Changes): Leg {
    var c := target.contract;
    var edited := c.(
      strike := if changes.strike.Some? then changes.strike else c.strike,
      expiry := changes.expiry.GetOr(c.expiry),
      kind := changes.kind.GetOr(c.kind));
    target.(contract := edited, action := changes.action.GetOr(target.action), lots := changes.lots.GetOr(target.lots))
  }

  /** The candidate as committed: a changed identity drops the old quote, and
      the volatility too unless only the expiry moved. */
  function Committed(target: Leg, changes: Changes): Leg {
    var candidate := Candidate(target, changes);
    if candidate.contract.SameIdentity(target.contract) then candidate
    else candidate.(contract := candidate.contract.(
      ltp := None,
      iv := if changes.kind.None? && changes.strike.None? then target.contract.iv else None))
  }

  function AddError(d: Draft, leg: Leg): Option<Error> {
    if !d.isDraft then Some(NotADraft)
    else if |d.legs| >= MAX_STRATEGY_LEGS then Some(TooManyLegs)
    else match GetSpec(d.underlying)
      case Raise(error) => Some(error)
      case Ok(spec) =>
        var alone := ValidateLeg(leg, spec);
        if alone.Some? then alone else ValidateAgainst(leg, d, None)
  }

  function RemoveError(d: Draft, id: nat): Option<Error> {
    if !d.isDraft then Some(NotADraft)
    else if IndexOf(d.legs, id) == |d.legs| then Some(LegNotFound)
    else None
  }

  function EditError(d: Draft, id: nat, changes: Changes): Option<Error> {
    var i := IndexOf(d.legs, id);
    if !d.isDraft then Some(NotADraft)
    else if i == |d.legs| then Some(LegNotFound)
    else match GetSpec(d.underlying)
      case Raise(error) => Some(error)
      case Ok(spec) =>
        var candidate := Candidate(d.legs[i], changes);
        var alone := ValidateLeg(candidate, spec);
        if alone.Some? then alone else ValidateAgainst(candidate, d, Some(id))
  }

  datatype Edit = Add(leg: Leg) | Remove(id: nat) | Change(id: nat, changes: Changes)

  function EditFailure(d: Draft, edit: Edit): Option<Error> {
    match edit
    case Add(leg) => AddError(d, leg)
    case Remove(id) => RemoveError(d, id)
    case Change(id, changes) => EditError(d, id, changes)
  }

  /** The draft after an edit; a refused edit leaves it as it was. */
  function Apply(d: Draft, edit: Edit): Draft {
    if EditFailure(d, edit).Some? then d
    else match edit
      case Add(leg) => d.(legs := d.legs + [leg])
      case Remove(id) =>
        var i := IndexOf(d.legs, id);
        d.(legs := d.legs[..i] + d.legs[i + 1..])
      case Change(id, changes) =>
        var i := IndexOf(d.legs, id);
        d.(legs := d.legs[i := Committed(d.legs[i], changes)])
  }

  function Run(d: Draft, edits: seq<Edit>): Draft
    decreases |edits|
  {
    if edits == [] then d else Run(Apply(d, edits[0]), edits[1..])
  }

  // --- The object the edits change -----------------------------------------

  class Strategy {
    const underlying: string
    var isDraft: bool
    const allowCalendar: bool
    var legs: seq<Leg>

    constructor (underlying: string, allowCalendar: bool)
      ensures View() == Draft(underlying, true, allowCalendar, [])
    {
      this.underlying, this.allowCalendar := underlying, allowCalendar;
      isDraft, legs := true, [];
    }

    function View(): Draft
      reads this
    {
      Draft(underlying, isDraft, allowCalendar, legs)
    }

    method AddLeg(leg: Leg) returns (r: Outcome<Leg>)
      modifies this`legs
      ensures View() == Apply(old(View()), Add(leg))
      ensures r == match AddError(old(View()), leg) case Some(error) => Raise(error) case None => Ok(leg)
    {
      if !isDraft {
        return Raise(NotADraft);
      }
      if |legs| >= MAX_STRATEGY_LEGS {
        return Raise(TooManyLegs);
      }
      var spec :- GetSpec(underlying);
      var alone := ValidateLeg(leg, spec);
      if alone.Some? {
        return Raise(alone.value);
      }
      var together := ValidateAgainst(leg, View(), None);
      if together.Some? {
        return Raise(together.value);
      }
      legs := legs + [leg];
      r := Ok(leg);
    }

    method RemoveLeg(id: nat) returns (r: Outcome<Leg>)
      modifies this`legs
      ensures View() == Apply(old(View()), Remove(id))
      ensures r.Raise? <==> RemoveError(old(View()), id).Some?
      ensures r.Raise? ==> Some(r.error) == RemoveError(old(View()), id)
      ensures r.Ok? ==> r.value == old(legs)[IndexOf(old(legs), id)]
    {
      if !isDraft {
        return Raise(NotADraft);
      }
      var i := 0;
      while i < |legs|
        invariant 0 <= i <= |legs| && legs == old(legs)
        invariant forall k :: 0 <= k < i ==> legs[k].id != id
      {
        if legs[i].id == id {
          r := Ok(legs[i]);
          legs := legs[..i] + legs[i + 1..];
          return;
        }
        i := i + 1;
      }
      r := Raise(LegNotFound);
    }

    method EditLeg(id: nat, changes: Changes) returns (r: Outcome<Leg>)
      modifies this`legs
      ensures View() == Apply(old(View()), Change(id, changes))
      ensures r.Raise? <==> EditError(old(View()), id, changes).Some?
      ensures r.Raise? ==> Some(r.error) == EditError(old(View()), id, changes)
      ensures r.Ok? ==> r.value in legs && r.value.id == id
    {
      if !isDraft {
        return Raise(NotADraft);
      }
      var i := IndexOf(legs, id);
      if i == |legs| {
        return Raise(LegNotFound);
      }
      var target := legs[i];
      var candidate := Candidate(target, changes);
      var spec :- GetSpec(underlying);
      var alone := ValidateLeg(candidate, spec);
      if alone.Some? {
        return Raise(alone.value);
      }
      var together := ValidateAgainst(candidate, View(), Some(id));
      if together.Some? {
        return Raise(together.value);
      }
      if !candidate.contract.SameIdentity(target.contract) {
        var keptIv := if changes.kind.None? && changes.strike.None? then target.contract.iv else None;
        candidate := candidate.(contract := candidate.contract.(ltp := None, iv := keptIv));
      }
      legs := legs[i := candidate];
      assert legs[i] == candidate;
      r := Ok(candidate);
    }
  }

  // --- What the full checker accepts ---------------------------------------

  /** The strike grids of the three underlyings there are. */
  ghost predicate GridOf(underlying: string, interval: int) {
    || (underlying == "NIFTY" && interval == 50)
    || (underlying == "BANKNIFTY" && interval == 100)
    || (underlying == "SENSEX" && interval == 100)
  }

  ghost predicate OnGrid(strike: real, interval: int, n: int) {
    strike == n as real * interval as real
  }

  /** A leg bought or sold, of at least one lot, in a future or in an option with
      a positive strike on the underlying's grid. */
  ghost predicate LegFits(leg: Leg, underlying: string) {
    var c := leg.contract;
    && c.underlying == underlying && (leg.action == BUY || leg.action == SELL) && 1 <= leg.lots
    && (c.kind == CE || c.kind == PE || c.kind == FUT)
    && exists interval: int :: GridOf(underlying, interval)
         && (c.kind != FUT ==> c.strike.Some? && 0.0 < c.strike.value && exists n: int :: OnGrid(c.strike.value, interval, n))
  }

  lemma SpecsAreTheGrids(underlying: string)
    ensures GetSpec(underlying).Ok? <==> exists interval :: GridOf(underlying, interval)
    ensures GetSpec(underlying).Ok? ==> forall interval :: GridOf(underlying, interval) <==> interval == GetSpec(underlying).value.strikeInterval
  {
    if GetSpec(underlying).Ok? {
      assert GridOf(underlying, GetSpec(underlying).value.strikeInterval);
    }
  }

  lemma WholeSteps(strike: real, interval: real, n: int)
    requires 0.0 < interval && strike == n as real * interval
    ensures (strike / interval).Floor == n
  {
    assert strike / interval == n as real;
  }

  lemma StepsMake(strike: real, interval: int, n: int)
    requires n as real * interval as real == strike
    ensures OnGrid(strike, interval, n)
  {
  }

  lemma StrikeIsValidIff(spec: InstrumentSpec, strike: real)
    requires spec.Valid()
    ensures spec.IsValidStrike(strike) <==> 0.0 < strike && exists n: int :: OnGrid(strike, spec.strikeInterval, n)
  {
    var interval := spec.strikeInterval;
    var steps := (strike / interval as real).Floor;
    if spec.IsValidStrike(strike) {
      StepsMake(strike, interval, steps);
    } else if n: int :| OnGrid(strike, interval, n) {
      WholeSteps(strike, interval as real, n);
      assert steps as real * interval as real == strike;
    }
  }

  lemma LegFitsIff(leg: Leg, underlying: string)
    ensures LegFits(leg, underlying)
            <==> && GetSpec(underlying).Ok? && ValidateLeg(leg, GetSpec(underlying).value).None?
                 && leg.contract.underlying == underlying
  {
    SpecsAreTheGrids(underlying);
    if GetSpec(underlying).Ok? && leg.contract.strike.Some? {
      StrikeIsValidIff(GetSpec(underlying).value, leg.contract.strike.value);
    }
  }

  ghost predicate OneExpiry(legs: seq<Leg>) {
    forall i, j :: 0 <= i < |legs| && 0 <= j < |legs| ==> legs[i].contract.expiry == legs[j].contract.expiry
  }

  ghost predicate WellFormed(d: Draft) {
    && |d.legs| <= 10
    && (forall i :: 0 <= i < |d.legs| ==> LegFits(d.legs[i], d.underlying))
    && (d.allowCalendar || OneExpiry(d.legs))
  }

  lemma {:induction false} EachIff(legs: seq<Leg>, underlying: string)
    requires GetSpec(underlying).Ok?
    ensures ValidateEach(legs, GetSpec(underlying).value, underlying).None?
            <==> forall i :: 0 <= i < |legs| ==> LegFits(legs[i], underlying)
  {
    if legs != [] {
      LegFitsIff(legs[0], underlying);
      EachIff(legs[1..], underlying);
      assert forall i :: 0 < i < |legs| ==> legs[i] == legs[1..][i - 1];
      assert forall i :: 0 <= i < |legs[1..]| ==> legs[1..][i] == legs[i + 1];
    }
  }

  lemma OneExpiryIff(legs: seq<Leg>)
    ensures OneExpiry(legs) <==> |Expiries(legs)| <= 1
  {
    var all := Expiries(legs);
    if OneExpiry(legs) {
      if legs != [] {
        assert all == {legs[0].contract.expiry};
      } else {
        assert all == {};
      }
    } else {
      var i, j :| 0 <= i < |legs| && 0 <= j < |legs| && legs[i].contract.expiry != legs[j].contract.expiry;
      assert legs[i] in legs && legs[j] in legs;
      assert {legs[i].contract.expiry, legs[j].contract.expiry} <= all;
      SubsetSize({legs[i].contract.expiry, legs[j].contract.expiry}, all);
    }
  }

  lemma {:induction false} SubsetSize<T>(a: set<T>, b: set<T>)
    requires a <= b
    ensures |a| <= |b|
  {
    if a != {} {
      var x :| x in a;
      SubsetSize(a - {x}, b - {x});
    }
  }

  /** The checker passes exactly the non-empty well-formed strategies. */
  lemma ValidateStrategyIff(d: Draft)
    ensures ValidateStrategy(d).None? <==> d.legs != [] && WellFormed(d)
  {
    if GetSpec(d.underlying).Ok? {
      EachIff(d.legs, d.underlying);
      OneExpiryIff(d.legs);
    } else if d.legs != [] {
      LegFitsIff(d.legs[0], d.underlying);
    }
  }

  /** One expiry, unless calendars are allowed or no other leg is set against. */
  ghost predicate ExpiryFits(d: Draft, expiry: int, ignored: Option<nat>) {
    || d.allowCalendar
    || (forall l :: l in d.legs ==> Some(l.id) == ignored)
    || (exists l :: l in d.legs && Some(l.id) != ignored && l.contract.expiry == expiry)
  }

  lemma ExpiryFitsIff(d: Draft, leg: Leg, ignored: Option<nat>)
    requires leg.contract.underlying == d.underlying
    ensures ValidateAgainst(leg, d, ignored).None? <==> ExpiryFits(d, leg.contract.expiry, ignored)
  {
    var others := OtherExpiries(d.legs, ignored);
    if others != {} {
      var e :| e in others;
    }
    forall l | l in d.legs && Some(l.id) != ignored
      ensures l.contract.expiry in others
    {
    }
  }

  /** A draft takes a leg exactly while it holds fewer than ten, the leg fits
      and so does its expiry; the leg then stands last. */
  lemma AddPossibleIff(d: Draft, leg: Leg)
    ensures AddError(d, leg).None?
            <==> d.isDraft && |d.legs| < 10 && LegFits(leg, d.underlying) && ExpiryFits(d, leg.contract.expiry, None)
    ensures Apply(d, Add(leg)) == if AddError(d, leg).None? then d.(legs := d.legs + [leg]) else d
  {
    LegFitsIff(leg, d.underlying);
    if leg.contract.underlying == d.underlying {
      ExpiryFitsIff(d, leg, None);
    }
  }

  /** Removing takes out the first leg with the id. */
  lemma RemoveTakesTheFirst(d: Draft, id: nat, i: nat)
    requires i < |d.legs| && d.legs[i].id == id && forall k :: 0 <= k < i ==> d.legs[k].id != id
    ensures RemoveError(d, id).None? <==> d.isDraft
    ensures d.isDraft ==> Apply(d, Remove(id)) == d.(legs := d.legs[..i] + d.legs[i + 1..])
  {
    assert IndexOf(d.legs, id) == i;
  }

  /** What an edit asks for, field by field; the rest of the leg stays. */
  ghost predicate Asked(target: Leg, changes: Changes, leg: Leg) {
    var was, c := target.contract, leg.contract;
    && leg == target.(contract := c, action := leg.action, lots := leg.lots)
    && c == was.(strike := c.strike, expiry := c.expiry, kind := c.kind)
    && c.strike == (if changes.strike.Some? then changes.strike else was.strike)
    && c.expiry == (if changes.expiry.Some? then changes.expiry.value else was.expiry)
    && c.kind == (if changes.kind.Some? then changes.kind.value else was.kind)
    && leg.action == (if changes.action.Some? then changes.action.value else target.action)
    && leg.lots == (if changes.lots.Some? then changes.lots.value else target.lots)
  }

  /** The first leg with the id is edited exactly when what is asked for fits; it
      becomes that, without its quote if the contract changed, and without its
      volatility too if a kind or a strike was given. */
  lemma EditPossibleIff(d: Draft, id: nat, changes: Changes, i: nat, wanted: Leg)
    requires i < |d.legs| && d.legs[i].id == id && forall k :: 0 <= k < i ==> d.legs[k].id != id
    requires Asked(d.legs[i], changes, wanted)
    ensures EditError(d, id, changes).None?
            <==> d.isDraft && LegFits(wanted, d.underlying) && ExpiryFits(d, wanted.contract.expiry, Some(id))
    ensures EditError(d, id, changes).Some? ==> Apply(d, Change(id, changes)) == d
    ensures EditError(d, id, changes).None? ==>
              var was, edited := d.legs[i].contract, Apply(d, Change(id, changes)).legs;
              var same := was.expiry == wanted.contract.expiry && was.kind == wanted.contract.kind && was.strike == wanted.contract.strike;
              && |edited| == |d.legs| && edited == d.legs[i := edited[i]]
              && edited[i] == wanted.(contract := wanted.contract.(
                                        ltp := if same then was.ltp else None,
                                        iv := if same || (changes.kind.None? && changes.strike.None?) then was.iv else None))
  {
    assert IndexOf(d.legs, id) == i && Candidate(d.legs[i], changes) == wanted;
    LegFitsIff(wanted, d.underlying);
    if wanted.contract.underlying == d.underlying {
      ExpiryFitsIff(d, wanted, Some(id));
    }
  }

  // --- Reachable drafts ----------------------------------------------------

  ghost predicate UniqueIds(legs: seq<Leg>) {
    forall i, j :: 0 <= i < j < |legs| ==> legs[i].id != legs[j].id
  }

  /** Every added leg carries an id the draft does not hold yet. */
  ghost predicate FreshAdds(d: Draft, edits: seq<Edit>)
    decreases |edits|
  {
    edits != [] ==>
      && (edits[0].Add? ==> forall l :: l in d.legs ==> l.id != edits[0].leg.id)
      && FreshAdds(Apply(d, edits[0]), edits[1..])
  }

  lemma ExpiryStays(d: Draft, leg: Leg, ignored: Option<nat>)
    requires !d.allowCalendar && OneExpiry(d.legs) && ValidateAgainst(leg, d, ignored).None?
    ensures forall l :: l in d.legs && Some(l.id) != ignored ==> l.contract.expiry == leg.contract.expiry
  {
    var others := OtherExpiries(d.legs, ignored);
    forall l | l in d.legs && Some(l.id) != ignored
      ensures l.contract.expiry == leg.contract.expiry
    {
      assert l.contract.expiry in others;
      var m :| m in d.legs && Some(m.id) != ignored && m.contract.expiry == leg.contract.expiry;
    }
  }

  lemma AddKeeps(d: Draft, leg: Leg)
    requires d.isDraft && WellFormed(d) && UniqueIds(d.legs) && AddError(d, leg).None?
    requires forall l :: l in d.legs ==> l.id != leg.id
    ensures var after := d.(legs := d.legs + [leg]); WellFormed(after) && UniqueIds(after.legs)
  {
    LegFitsIff(leg, d.underlying);
    if !d.allowCalendar {
      ExpiryStays(d, leg, None);
    }
    assert forall k :: 0 <= k < |d.legs| ==> d.legs[k] in d.legs;
  }

  lemma RemoveKeeps(d: Draft, i: nat)
    requires WellFormed(d) && UniqueIds(d.legs) && i < |d.legs|
    ensures var after := d.(legs := d.legs[..i] + d.legs[i + 1..]); WellFormed(after) && UniqueIds(after.legs)
  {
    var after := d.legs[..i] + d.legs[i + 1..];
    assert forall k :: 0 <= k < |after| ==> after[k] == d.legs[if k < i then k else k + 1];
  }

  lemma CommittedFits(target: Leg, changes: Changes, underlying: string)
    requires LegFits(Candidate(target, changes), underlying)
    ensures LegFits(Committed(target, changes), underlying)
  {
    LegFitsIff(Candidate(target, changes), underlying);
    LegFitsIff(Committed(target, changes), underlying);
  }

  lemma ChangeKeeps(d: Draft, id: nat, changes: Changes)
    requires d.isDraft && WellFormed(d) && UniqueIds(d.legs) && EditError(d, id, changes).None?
    ensures var i := IndexOf(d.legs, id);
            var after := d.(legs := d.legs[i := Committed(d.legs[i], changes)]);
            WellFormed(after) && UniqueIds(after.legs)
  {
    var i := IndexOf(d.legs, id);
    var edited := Committed(d.legs[i], changes);
    var legs := d.legs[i := edited];
    LegFitsIff(Candidate(d.legs[i], changes), d.underlying);
    CommittedFits(d.legs[i], changes, d.underlying);
    assert edited.id == id && edited.contract.expiry == Candidate(d.legs[i], changes).contract.expiry;
    if !d.allowCalendar {
      ExpiryStays(d, Candidate(d.legs[i], changes), Some(id));
      forall k | 0 <= k < |legs|
        ensures legs[k].contract.expiry == edited.contract.expiry
      {
        if k != i {
          assert d.legs[k] in d.legs && d.legs[k].id != id;
        }
      }
    }
  }

  lemma ApplyKeeps(d: Draft, edit: Edit)
    requires d.isDraft && WellFormed(d) && UniqueIds(d.legs)
    requires edit.Add? ==> forall l :: l in d.legs ==> l.id != edit.leg.id
    ensures WellFormed(Apply(d, edit)) && UniqueIds(Apply(d, edit).legs)
  {
    if EditFailure(d, edit).None? {
      match edit
      case Add(leg) => AddKeeps(d, leg);
      case Remove(id) => RemoveKeeps(d, IndexOf(d.legs, id));
      case Change(id, changes) => ChangeKeeps(d, id, changes);
    }
  }

  lemma {:induction false} RunKeeps(d: Draft, edits: seq<Edit>)
    requires d.isDraft && WellFormed(d) && UniqueIds(d.legs) && FreshAdds(d, edits)
    ensures var after := Run(d, edits);
            WellFormed(after) && UniqueIds(after.legs) && after.underlying == d.underlying
    decreases |edits|
  {
    if edits != [] {
      ApplyKeeps(d, edits[0]);
      RunKeeps(Apply(d, edits[0]), edits[1..]);
    }
  }

  /** However a draft was edited into being, once it has a leg it passes the
      check made before execution. */
  lemma ReachableDraftsPass(underlying: string, allowCalendar: bool, edits: seq<Edit>)
    requires FreshAdds(Draft(underlying, true, allowCalendar, []), edits)
    ensures var after := Run(Draft(underlying, true, allowCalendar, []), edits);
            after.legs != [] ==> ValidateStrategy(after).None?
  {
    RunKeeps(Draft(underlying, true, allowCalendar, []), edits);
    ValidateStrategyIff(Run(Draft(underlying, true, allowCalendar, []), edits));
  }

  function AddAll(legs: seq<Leg>): seq<Edit> {
    if legs == [] then [] else AddAll(legs[..|legs| - 1]) + [Add(legs[|legs| - 1])]
  }

  lemma {:induction false} RunAppend(d: Draft, edits: seq<Edit>, last: Edit)
    ensures Run(d, edits + [last]) == Apply(Run(d, edits), last)
    decreases |edits|
  {
    if edits != [] {
      assert (edits + [last])[1..] == edits[1..] + [last];
      RunAppend(Apply(d, edits[0]), edits[1..], last);
    } else {
      assert ([last])[1..] == [];
    }
  }

  lemma TakesTheNext(front: Draft, last: Leg)
    requires front.isDraft && WellFormed(front.(legs := front.legs + [last]))
    ensures Apply(front, Add(last)) == front.(legs := front.legs + [last])
  {
    var all := front.legs + [last];
    assert all[|front.legs|] == last;
    if front.legs != [] {
      assert all[0] == front.legs[0] && front.legs[0] in front.legs;
    }
    AddPossibleIff(front, last);
  }

  /** Conversely the builder refuses nothing the checker would pass: adding
      the legs of any passing strategy one by one rebuilds it. */
  lemma {:induction false} PassingDraftsAreReachable(d: Draft)
    requires d.isDraft && WellFormed(d)
    ensures Run(d.(legs := []), AddAll(d.legs)) == d
    decreases |d.legs|
  {
    if d.legs != [] {
      var n := |d.legs| - 1;
      var front, last := d.(legs := d.legs[..n]), d.legs[n];
      PassingDraftsAreReachable(front);
      RunAppend(d.(legs := []), AddAll(front.legs), Add(last));
      assert forall k :: 0 <= k < n ==> front.legs[k] == d.legs[k];
      TakesTheNext(front, last);
      assert front.legs + [last] == d.legs;
    }
  }

  lemma TwoExpiriesFail(first: Leg, second: Leg)
    requires LegFits(first, "NIFTY") && LegFits(second, "NIFTY") && first.contract.expiry != second.contract.expiry
    ensures ValidateStrategy(Draft("NIFTY", true, false, [first, second])) == Some(CalendarNotAllowed)
  {
    var legs := [first, second];
    assert legs[0].contract.expiry != legs[1].contract.expiry;
    EachIff(legs, "NIFTY");
    OneExpiryIff(legs);
  }

  /** Only distinct ids make this work. Two legs sharing an id are both set
      aside when one is edited, so an edit can split their expiries. */
  lemma SharedIdBreaksTheCalendarRule(leg: Leg)
    requires LegFits(leg, "NIFTY") && leg.contract.expiry == 100
    ensures var moved := Changes(None, Some(200), None, None, None);
            var d := Draft("NIFTY", true, false, [leg, leg]);
            && Run(d.(legs := []), [Add(leg), Add(leg)]) == d
            && EditError(d, leg.id, moved).None?
            && ValidateStrategy(Apply(d, Change(leg.id, moved))) == Some(CalendarNotAllowed)
  {
    var moved := Changes(None, Some(200), None, None, None);
    var d := Draft("NIFTY", true, false, [leg, leg]);
    assert OneExpiry(d.legs);
    PassingDraftsAreReachable(d);
    assert d.legs[..1] == [leg] && d.legs[..1][..0] == [];
    assert AddAll(d.legs[..1]) == [Add(leg)] && AddAll(d.legs) == [Add(leg), Add(leg)];
    assert OtherExpiries(d.legs, Some(leg.id)) == {};
    var after := [Committed(leg, moved), leg];
    assert d.legs[0 := Committed(leg, moved)] == after;
    CommittedFits(leg, moved, "NIFTY");
    TwoExpiriesFail(after[0], after[1]);
  }

  /** Legs the calendar check sets aside with the edited one. */
  ghost predicate SharersAgree(d: Draft, i: nat, expiry: int)
    requires i < |d.legs|
  {
    forall k :: 0 <= k < |d.legs| && k != i && d.legs[k].id == d.legs[i].id ==> d.legs[k].contract.expiry == expiry
  }

  /** An accepted edit keeps the calendar rule if and only if calendars are
      allowed or every other leg with that id already has the new expiry. */
  lemma ChangeKeepsCalendarIff(d: Draft, id: nat, changes: Changes)
    requires EditError(d, id, changes).None? && (d.allowCalendar || OneExpiry(d.legs))
    ensures var i, after := IndexOf(d.legs, id), Apply(d, Change(id, changes));
            && i < |d.legs|
            && (after.allowCalendar || OneExpiry(after.legs)
                <==> d.allowCalendar || SharersAgree(d, i, Candidate(d.legs[i], changes).contract.expiry))
  {
    var i := IndexOf(d.legs, id);
    var candidate := Candidate(d.legs[i], changes);
    var after := Apply(d, Change(id, changes));
    assert after.legs[i].contract.expiry == candidate.contract.expiry;
    if !d.allowCalendar {
      ExpiryStays(d, candidate, Some(id));
      assert forall k :: 0 <= k < |d.legs| ==> d.legs[k] in d.legs;
      assert forall k :: 0 <= k < |d.legs| && k != i ==> after.legs[k] == d.legs[k];
      if SharersAgree(d, i, candidate.contract.expiry) {
        assert forall k :: 0 <= k < |d.legs| ==> after.legs[k].contract.expiry == candidate.contract.expiry;
      } else {
        var k :| 0 <= k < |d.legs| && k != i && d.legs[k].id == id && d.legs[k].contract.expiry != candidate.contract.expiry;
        assert after.legs[k].contract.expiry != after.legs[i].contract.expiry;
      }
    }
  }

  /** A leg keeps its quote through an edit only if the contract is the same one. */
  lemma StaleQuotesAreDropped(target: Leg, changes: Changes)
    ensures var after := Committed(target, changes);
            && after.id == target.id && after.status == target.status && after.entryPrice == target.entryPrice
            && (after.contract.ltp.Some? ==> after.contract.SameIdentity(target.contract))
            && (after.contract.iv.Some? ==> after.contract.kind == target.contract.kind
                                            && after.contract.strike == target.contract.strike)
  {
  }
}
