/** `drf.py` and `middleware.py`: a request binds its organization, a view may bind again and again, and
    whatever happens the binding is put back. */
module RequestBinding {
  import opened Outcomes
  import opened ContextVars
  import opened ContextBinding
  import Retrievers

  /** Code run on behalf of the view: it may bind and unbind through the view, set the state behind its
      back, look at what is bound, and raise. An exception is `answered` when DRF has a response for it:
      `handle_exception` returns one for its own exceptions, a 404 and a permission error, and lets any
      other escape. */
  datatype Action = Bind(organization: Option<OrgId>) | Unbind | SetState(selection: Selection) | Observe
                  | Raise(answered: bool)

  predicate IsCalm(actions: seq<Action>) { forall a :: a in actions ==> a.Observe? || a.Raise? }

  /** Every set of the state goes through the view. */
  predicate UsesTheView(actions: seq<Action>) { forall a :: a in actions ==> !a.SetState? }

  function ToBinding(organization: Option<OrgId>): Binding {
    if organization.None? then Unbound else ToInstance(organization.value)
  }

  datatype Outcome = Running | Answered | Escaped

  function Raised(answered: bool): Outcome { if answered then Answered else Escaped }

  /** What lies underneath the view's own binding, whether the view holds one, and how far the code got. */
  datatype Trace = Trace(underneath: Binding, held: bool, outcome: Outcome)

  function Effect(t: Trace, action: Action): Trace {
    match action
    case Bind(_) => t.(held := true)
    case Unbind => t.(held := false)
    case SetState(selection) => if t.held then t else t.(underneath := Coerce(selection))
    case Observe => t
    case Raise(answered) => t.(outcome := Raised(answered))
  }

  function Effects(t: Trace, actions: seq<Action>): Trace
    decreases |actions|
  {
    if actions == [] || !t.outcome.Running? then t else Effects(Effect(t, actions[0]), actions[1..])
  }

  lemma {:induction false} EffectsInSteps(t: Trace, actions: seq<Action>, k: nat)
    requires k < |actions| && Effects(t, actions[..k]).outcome.Running?
    ensures Effects(t, actions[..k + 1]) == Effect(Effects(t, actions[..k]), actions[k])
    ensures !Effect(Effects(t, actions[..k]), actions[k]).outcome.Running? ==>
              Effects(t, actions) == Effects(t, actions[..k + 1])
    decreases k
  {
    if k == 0 {
      assert actions[..1] == [actions[0]];
    } else {
      assert actions[..k][1..] == actions[1..][..k - 1] && actions[..k + 1][1..] == actions[1..][..k];
      EffectsInSteps(Effect(t, actions[0]), actions[1..], k - 1);
    }
  }

  /** What the framework and the project do around the view's own steps: `super().perform_authentication`
      and the negotiation before it, the permission and throttle checks, the handler method; then, for an
      exception, `handle_exception`, and for a response, whichever made it, `finalize_response`. */
  datatype Plan = Plan(
    authentication: seq<Action>,
    db: Retrievers.Db,
    caller: Retrievers.Caller,
    selection: Retrievers.Selection,
    optional: bool,
    checks: seq<Action>,
    handler: seq<Action>,
    handling: seq<Action>,
    finalizing: seq<Action>)

  /** `resolve_organization`: what the caller may select. Both refusals are raised as DRF's own
      exceptions, which DRF answers. */
  function Resolved(plan: Plan): Result<Option<OrgId>> {
    Retrievers.ResolveOrganizationForUser(plan.db, plan.caller, plan.selection, !plan.optional)
  }

  /** The body of `dispatch`: up to the handler's return, or the first exception. */
  function BodyEffects(plan: Plan, before: Binding): Trace {
    var authenticated := Effects(Trace(before, false, Running), plan.authentication);
    if !authenticated.outcome.Running? then authenticated
    else if Resolved(plan).Failure? then authenticated.(outcome := Answered)
    else Effects(Effects(authenticated.(held := true), plan.checks), plan.handler)
  }

  /** Code that runs when the outcome is settled. Nobody answers an exception there. */
  function Afterwards(t: Trace, actions: seq<Action>): Trace {
    var after := Effects(t.(outcome := Running), actions);
    after.(outcome := if after.outcome.Running? then t.outcome else Escaped)
  }

  /** `dispatch`, up to its `finally`. */
  function DispatchEffects(plan: Plan, before: Binding): Trace {
    var body := BodyEffects(plan, before);
    var handled := if body.outcome.Running? then body else Afterwards(body, plan.handling);
    if handled.outcome.Escaped? then handled else Afterwards(handled, plan.finalizing)
  }

  // ----------------------------------------------------- when a view hands its binding back

  /** The sets made behind the view's back while it held nothing, up to the first exception. What is
      bound, and where, plays no part. */
  function LooseSets(held: bool, actions: seq<Action>): seq<Selection>
    decreases |actions|
  {
    if actions == [] then []
    else match actions[0]
      case Bind(_) => LooseSets(true, actions[1..])
      case Unbind => LooseSets(false, actions[1..])
      case SetState(selection) => (if held then [] else [selection]) + LooseSets(held, actions[1..])
      case Observe => LooseSets(held, actions[1..])
      case Raise(_) => []
  }

  /** Whether the view holds a binding after the actions, the last bind or unbind deciding. */
  function HeldAfter(held: bool, actions: seq<Action>): bool
    decreases |actions|
  {
    if actions == [] || actions[0].Raise? then held
    else HeldAfter(if actions[0].Bind? then true else if actions[0].Unbind? then false else held, actions[1..])
  }

  /** The first exception of the actions. */
  function EndOf(actions: seq<Action>): Outcome {
    if actions == [] then Running
    else if actions[0].Raise? then Raised(actions[0].answered)
    else EndOf(actions[1..])
  }

  ghost predicate FirstRaises(actions: seq<Action>, answered: bool) {
    exists k :: 0 <= k < |actions| && actions[k] == Action.Raise(answered) && forall j :: 0 <= j < k ==> !actions[j].Raise?
  }

  /** The first exception decides, by whether DRF has an answer for it. */
  lemma {:induction false} FirstExceptionDecides(actions: seq<Action>)
    ensures EndOf(actions).Answered? <==> FirstRaises(actions, true)
    ensures EndOf(actions).Escaped? <==> FirstRaises(actions, false)
  {
    if actions != [] {
      FirstExceptionDecides(actions[1..]);
      FirstRaisesLater(actions, true);
      FirstRaisesLater(actions, false);
    }
  }

  lemma FirstRaisesLater(actions: seq<Action>, answered: bool)
    requires actions != []
    ensures FirstRaises(actions, answered) <==>
            if actions[0].Raise? then actions[0].answered == answered else FirstRaises(actions[1..], answered)
  {
    var rest := actions[1..];
    if actions[0] == Action.Raise(answered) { assert FirstRaises(actions, answered); }
    if FirstRaises(actions, answered) && !actions[0].Raise? {
      var k :| 0 <= k < |actions| && actions[k] == Action.Raise(answered) && forall j :: 0 <= j < k ==> !actions[j].Raise?;
      assert rest[k - 1] == Action.Raise(answered) && forall j :: 0 <= j < k - 1 ==> rest[j] == actions[j + 1];
    }
    if FirstRaises(rest, answered) && !actions[0].Raise? {
      var k :| 0 <= k < |rest| && rest[k] == Action.Raise(answered) && forall j :: 0 <= j < k ==> !rest[j].Raise?;
      assert actions[k + 1] == Action.Raise(answered) && forall j :: 0 < j < k + 1 ==> actions[j] == rest[j - 1];
    }
  }

  /** The first exception of the body. */
  function BodyEnd(plan: Plan): Outcome {
    if !EndOf(plan.authentication).Running? then EndOf(plan.authentication)
    else if Resolved(plan).Failure? then Answered
    else if !EndOf(plan.checks).Running? then EndOf(plan.checks)
    else EndOf(plan.handler)
  }

  function BodyHolds(plan: Plan): bool {
    if !EndOf(plan.authentication).Running? || Resolved(plan).Failure? then HeldAfter(false, plan.authentication)
    else if !EndOf(plan.checks).Running? then HeldAfter(true, plan.checks)
    else HeldAfter(HeldAfter(true, plan.checks), plan.handler)
  }

  /** The loose sets of the body: three stretches of code, each only if the one before it came to its
      end, and the view's own bind between the first and the second. */
  function BodySets(plan: Plan): seq<Selection> {
    LooseSets(false, plan.authentication) +
    if !EndOf(plan.authentication).Running? || Resolved(plan).Failure? then []
    else LooseSets(true, plan.checks) +
         if !EndOf(plan.checks).Running? then [] else LooseSets(HeldAfter(true, plan.checks), plan.handler)
  }

  /** What DRF has no answer for: an exception it was not given one for, or any that is raised while an
      exception is handled or a response finalized. */
  predicate ViewEscapes(plan: Plan) {
    match BodyEnd(plan)
    case Escaped => true
    case Answered => !EndOf(plan.handling).Running? || !EndOf(plan.finalizing).Running?
    case Running => !EndOf(plan.finalizing).Running?
  }

  /** And of one dispatch: the body's, those made while an exception is handled, and those made while a
      response is finalized, if it comes to that. */
  function LooseSetsOf(plan: Plan): seq<Selection> {
    var (raised, held) := (!BodyEnd(plan).Running?, BodyHolds(plan));
    BodySets(plan) +
    (if raised then LooseSets(held, plan.handling) else []) +
    if raised && (BodyEnd(plan).Escaped? || !EndOf(plan.handling).Running?) then []
    else LooseSets(if raised then HeldAfter(held, plan.handling) else held, plan.finalizing)
  }

  function LastBinding(loose: seq<Selection>, before: Binding): Binding {
    if loose == [] then before else Coerce(loose[|loose| - 1])
  }

  lemma {:induction false} EffectsByScanning(t: Trace, actions: seq<Action>)
    requires t.outcome.Running?
    ensures Effects(t, actions) ==
            Trace(LastBinding(LooseSets(t.held, actions), t.underneath), HeldAfter(t.held, actions), EndOf(actions))
    decreases |actions|
  {
    if actions != [] {
      var next := Effect(t, actions[0]);
      if next.outcome.Running? {
        EffectsByScanning(next, actions[1..]);
      }
    }
  }

  lemma LastOfBoth(a: seq<Selection>, b: seq<Selection>, before: Binding)
    ensures LastBinding(a + b, before) == LastBinding(b, LastBinding(a, before))
    ensures LastBinding(a + [], before) == LastBinding(a, before)
  {
    assert a + [] == a;
  }

  lemma BodyByScanning(plan: Plan, before: Binding)
    ensures BodyEffects(plan, before) == Trace(LastBinding(BodySets(plan), before), BodyHolds(plan), BodyEnd(plan))
  {
    assert forall t: Trace :: !t.outcome.Running? ==> Effects(t, plan.handler) == t;
    hide Effects, LooseSets, HeldAfter, EndOf, Resolved, LastBinding;
    var start := Trace(before, false, Running);
    EffectsByScanning(start, plan.authentication);
    var authenticated := Effects(start, plan.authentication);
    var first := LooseSets(false, plan.authentication);
    LastOfBoth(first, [], before);
    if authenticated.outcome.Running? && Resolved(plan).Success? {
      var bound := authenticated.(held := true);
      EffectsByScanning(bound, plan.checks);
      var checked := Effects(bound, plan.checks);
      var second := LooseSets(true, plan.checks);
      LastOfBoth(second, [], authenticated.underneath);
      LastOfBoth(first, second + [], before);
      if checked.outcome.Running? {
        EffectsByScanning(checked, plan.handler);
        var third := LooseSets(HeldAfter(true, plan.checks), plan.handler);
        LastOfBoth(second, third, authenticated.underneath);
        LastOfBoth(first, second + third, before);
      }
    }
  }

  /** What escapes a dispatch does not depend on what is bound. */
  lemma DispatchByScanning(plan: Plan, before: Binding)
    ensures DispatchEffects(plan, before).underneath == LastBinding(LooseSetsOf(plan), before)
    ensures DispatchEffects(plan, before).outcome.Escaped? <==> ViewEscapes(plan)
  {
    hide Effects, LooseSets, HeldAfter, EndOf, BodyEffects, BodySets, BodyHolds, BodyEnd;
    BodyByScanning(plan, before);
    var body := BodyEffects(plan, before);
    EffectsByScanning(body.(outcome := Running), plan.handling);
    EffectsByScanning(body.(outcome := Running), plan.finalizing);
    var handled := Afterwards(body, plan.handling);
    EffectsByScanning(handled.(outcome := Running), plan.finalizing);
  }

  /** Exactly when a view hands back the binding it found: no set was made behind its back while it held
      none, or the last such set bound what was there before. */
  lemma DispatchRestoresIff(plan: Plan, before: Binding)
    ensures DispatchEffects(plan, before).underneath == LastBinding(LooseSetsOf(plan), before)
    ensures DispatchEffects(plan, before).underneath == before <==>
              LooseSetsOf(plan) == [] || Coerce(LooseSetsOf(plan)[|LooseSetsOf(plan)| - 1]) == before
  {
    DispatchByScanning(plan, before);
  }

  lemma {:induction false} NoLooseSets(held: bool, actions: seq<Action>)
    requires UsesTheView(actions) || (held && Unbind !in actions)
    ensures LooseSets(held, actions) == []
    ensures held && Unbind !in actions ==> HeldAfter(held, actions)
    decreases |actions|
  {
    if actions != [] {
      assert forall a :: a in actions[1..] ==> a in actions;
      match actions[0]
      case Bind(_) => NoLooseSets(true, actions[1..]);
      case Unbind => NoLooseSets(false, actions[1..]);
      case _ => NoLooseSets(held, actions[1..]);
    }
  }

  /** Any sequence of binds and unbinds through the view is put back; so is, between the view's own bind
      and the end of the handler, code that sets the state behind its back but never unbinds. */
  lemma DispatchRestores(plan: Plan, before: Binding)
    requires UsesTheView(plan.authentication) && UsesTheView(plan.handling) && UsesTheView(plan.finalizing)
    requires (UsesTheView(plan.checks) && UsesTheView(plan.handler)) || (Unbind !in plan.checks && Unbind !in plan.handler)
    ensures DispatchEffects(plan, before).underneath == before
  {
    DispatchRestoresIff(plan, before);
    NoLooseSets(false, plan.authentication);
    NoLooseSets(true, plan.checks);
    NoLooseSets(HeldAfter(true, plan.checks), plan.handler);
    OnlyTheBodySets(plan);
  }

  lemma OnlyTheBodySets(plan: Plan)
    requires UsesTheView(plan.handling) && UsesTheView(plan.finalizing)
    ensures LooseSetsOf(plan) == BodySets(plan)
  {
    forall held: bool ensures LooseSets(held, plan.handling) == [] && LooseSets(held, plan.finalizing) == [] {
      NoLooseSets(held, plan.handling);
      NoLooseSets(held, plan.finalizing);
    }
  }

  /** A set after an unbind outlives the view; only the middleware puts that back. */
  lemma SettingAfterUnbindingLeaks(plan: Plan, before: Binding, selection: Selection)
    requires plan.authentication == [] && plan.checks == [] && plan.handler == [Unbind, SetState(selection)]
    requires Resolved(plan).Success? && UsesTheView(plan.handling) && UsesTheView(plan.finalizing)
    ensures DispatchEffects(plan, before).underneath == Coerce(selection)
  {
    DispatchRestoresIff(plan, before);
    OnlyTheBodySets(plan);
    assert plan.handler[1..] == [SetState(selection)];
    assert LooseSets(false, plan.handler[1..]) == [selection] + LooseSets(false, []);
  }

  /** So does a set while the caller is being authenticated, whatever comes after it through the view. */
  lemma SettingWhileAuthenticatingLeaks(plan: Plan, before: Binding, selection: Selection)
    requires plan.authentication == [SetState(selection)] && UsesTheView(plan.checks) && UsesTheView(plan.handler)
    requires UsesTheView(plan.handling) && UsesTheView(plan.finalizing)
    ensures DispatchEffects(plan, before).underneath == Coerce(selection)
  {
    DispatchRestoresIff(plan, before);
    OnlyTheBodySets(plan);
    assert LooseSets(false, plan.authentication) == [selection] + LooseSets(false, []);
    NoLooseSets(true, plan.checks);
    NoLooseSets(HeldAfter(true, plan.checks), plan.handler);
  }

  /** And a set by the project's exception handler, when the selection is refused: the view never bound. */
  lemma SettingWhileHandlingLeaks(plan: Plan, before: Binding, selection: Selection)
    requires UsesTheView(plan.authentication) && EndOf(plan.authentication).Running?
    requires Resolved(plan).Failure? && plan.handling == [SetState(selection)] && UsesTheView(plan.finalizing)
    requires forall a :: a in plan.authentication ==> !a.Bind?
    ensures DispatchEffects(plan, before).underneath == Coerce(selection)
  {
    DispatchRestoresIff(plan, before);
    NoLooseSets(false, plan.authentication);
    NothingHeld(plan.authentication);
    assert LooseSets(false, plan.handling) == [selection] + LooseSets(false, []);
    NoLooseSets(HeldAfter(false, plan.handling), plan.finalizing);
  }

  lemma {:induction false} NothingHeld(actions: seq<Action>)
    requires forall a :: a in actions ==> !a.Bind?
    ensures !HeldAfter(false, actions)
  {
    if actions != [] {
      assert actions[0] in actions && forall a :: a in actions[1..] ==> a in actions;
      NothingHeld(actions[1..]);
    }
  }

  class View {
    const state: OrganizationState
    var token: Option<Token<Binding>>
    var observed: seq<Binding>
    ghost var issued: seq<Token<Binding>>

    /** A view is built for each request. */
    constructor (state: OrganizationState)
      ensures this.state == state && token == None && observed == [] && issued == [] && Valid()
    {
      this.state, token, observed, issued := state, None, [], [];
    }

    /** The tokens taken so far are spent, but for the one held. */
    ghost predicate Valid()
      reads this, issued
    {
      && (forall i, j :: 0 <= i < j < |issued| ==> issued[i] != issued[j])
      && (forall i :: 0 <= i < |issued| ==> (issued[i].used <==> !(token.Some? && i == |issued| - 1)))
      && (token.Some? ==> issued != [] && token.value == issued[|issued| - 1])
    }

    ghost function Held(): set<object> reads this { if token.Some? then {token.value} else {} }

    ghost function Now(outcome: Outcome): Trace
      reads this, state.current
    {
      Trace(if token.Some? then token.value.before else state.current.value, token.Some?, outcome)
    }

    /** `unbind_organization`: a no-op when nothing is held; the token is let go before it is used. */
    method UnbindOrganization()
      requires Valid()
      modifies this`token, state.current, Held()
      ensures Valid() && token == None && issued == old(issued)
      ensures state.current.value == old(Now(Running).underneath)
    {
      if token.Some? {
        var held := token.value;
        token := None;
        var ok := state.Reset(held);
        assert ok;
      }
    }

    /** `bind_organization`: the previous binding is released first, and `None` is bound like any other. */
    method BindOrganization(organization: Option<OrgId>)
      requires Valid()
      modifies this`token, this`issued, state.current, Held()
      ensures Valid() && token.Some? && fresh(token.value) && issued == old(issued) + [token.value]
      ensures state.current.value == (if organization.None? then Unbound else ToInstance(organization.value))
      ensures Now(Running) == old(Now(Running)).(held := true)
    {
      UnbindOrganization();
      var taken := state.Set(if organization.None? then NoSelection else Instance(organization.value));
      token := Some(taken);
      issued := issued + [taken];
    }

    method Perform(actions: seq<Action>) returns (outcome: Outcome)
      requires Valid()
      modifies this, state.current, Held()
      ensures Valid() && Now(outcome) == Effects(old(Now(Running)), actions)
      ensures token.Some? ==> token == old(token) || fresh(token.value)
      ensures IsCalm(actions) ==> token == old(token) && state.current.value == old(state.current.value)
      ensures old(observed) <= observed
      ensures IsCalm(actions) ==> forall i :: |old(observed)| <= i < |observed| ==> observed[i] == old(state.current.value)
    {
      for k := 0 to |actions|
        invariant Valid() && Now(Running) == Effects(old(Now(Running)), actions[..k])
        invariant token.Some? ==> token == old(token) || fresh(token.value)
        invariant IsCalm(actions) ==> token == old(token) && state.current.value == old(state.current.value)
        invariant old(observed) <= observed
        invariant IsCalm(actions) ==> forall i :: |old(observed)| <= i < |observed| ==> observed[i] == old(state.current.value)
      {
        EffectsInSteps(old(Now(Running)), actions, k);
        assert actions[k] in actions;
        match actions[k]
        case Bind(organization) => BindOrganization(organization);
        case Unbind => UnbindOrganization();
        case SetState(selection) => var _ := state.Set(selection);
        case Observe => observed := observed + [state.current.value];
        case Raise(answered) => return Raised(answered);
      }
      assert actions[..|actions|] == actions;
      outcome := Running;
    }

    /** `perform_authentication`: authenticate, resolve, bind. */
    method PerformAuthentication(plan: Plan) returns (outcome: Outcome)
      requires Valid()
      modifies this, state.current, Held()
      ensures Valid() && (token.Some? ==> token == old(token) || fresh(token.value))
      ensures
        var t := Effects(old(Now(Running)), plan.authentication);
        Now(outcome) == if !t.outcome.Running? then t else if Resolved(plan).Failure? then t.(outcome := Answered) else t.(held := true)
      ensures outcome.Running? ==> Resolved(plan).Success? && state.current.value == ToBinding(Resolved(plan).value)
    {
      outcome := Perform(plan.authentication);
      if !outcome.Running? {
        return;
      }
      var r := Resolved(plan);
      if r.Failure? {
        return Answered;
      }
      BindOrganization(r.value);
    }

    /** `dispatch`: what escapes it, an answered exception being a response. The tokens are all spent when
        it ends; the checks, if they leave the binding alone, ran under the organization the handler
        starts under. */
    method Dispatch(plan: Plan) returns (escaped: bool, seenByChecks: seq<Binding>, atHandler: Option<Binding>)
      requires Valid() && token.None?
      modifies this, state.current
      ensures Valid() && token == None && forall i :: 0 <= i < |issued| ==> issued[i].used
      ensures state.current.value == DispatchEffects(plan, old(state.current.value)).underneath
      ensures escaped == ViewEscapes(plan)
      ensures (forall a :: a in plan.checks ==> a.Observe? || a.Raise?) && (seenByChecks != [] || atHandler.Some?) ==>
        && Resolved(plan).Success?
        && var organization := Resolved(plan).value;
        && var expected := if organization.None? then Unbound else ToInstance(organization.value);
        && (forall b :: b in seenByChecks ==> b == expected)
        && (atHandler.Some? ==> atHandler.value == expected)
    {
      var outcome;
      outcome, seenByChecks, atHandler := PerformBody(plan);
      if !outcome.Running? {
        outcome := PerformAfterwards(plan.handling, outcome);
      }
      if !outcome.Escaped? {
        outcome := PerformAfterwards(plan.finalizing, outcome);
      }
      UnbindOrganization();
      escaped := outcome.Escaped?;
      DispatchByScanning(plan, old(state.current.value));
    }

    /** `initial` and the handler. */
    method PerformBody(plan: Plan) returns (outcome: Outcome, seenByChecks: seq<Binding>, atHandler: Option<Binding>)
      requires Valid() && token.None?
      modifies this, state.current
      ensures Valid() && Now(outcome) == BodyEffects(plan, old(state.current.value))
      ensures token.Some? ==> fresh(token.value)
      ensures IsCalm(plan.checks) && (seenByChecks != [] || atHandler.Some?) ==>
        && Resolved(plan).Success?
        && (forall b :: b in seenByChecks ==> b == ToBinding(Resolved(plan).value))
        && (atHandler.Some? ==> atHandler.value == ToBinding(Resolved(plan).value))
    {
      seenByChecks, atHandler := [], None;
      outcome := PerformAuthentication(plan);
      if outcome.Running? {
        var mark := |observed|;
        outcome := Perform(plan.checks);
        seenByChecks := observed[mark..];
        if outcome.Running? {
          atHandler := Some(state.current.value);
          outcome := Perform(plan.handler);
        }
      }
    }

    /** Code of the project that DRF runs when the outcome is settled. */
    method PerformAfterwards(actions: seq<Action>, settled: Outcome) returns (outcome: Outcome)
      requires Valid()
      modifies this, state.current, Held()
      ensures Valid() && Now(outcome) == Afterwards(old(Now(settled)), actions)
      ensures token.Some? ==> token == old(token) || fresh(token.value)
    {
      outcome := Perform(actions);
      outcome := if outcome.Running? then settled else Escaped;
    }
  }

  // -------------------------------------------------------------------- the middleware

  /** What the middleware attaches to the request. */
  class Request {
    var token: Option<Token<Binding>>
    var before: Option<OrgId>

    constructor ()
      ensures token == None
    {
      token, before := None, None;
    }
  }

  class OrganizationMiddleware {
    const state: OrganizationState
    const slugs: map<string, OrgId>

    constructor (state: OrganizationState, slugs: map<string, OrgId>)
      ensures this.state == state && this.slugs == slugs
    {
      this.state, this.slugs := state, slugs;
    }

    /** `process_request`: remember what is bound, and bind what the request will resolve to. */
    method ProcessRequest(request: Request, resolves: Option<OrgId>)
      modifies request, state.current
      ensures request.before == Read(slugs, old(state.current.value))
      ensures request.token.Some? && fresh(request.token.value) && !request.token.value.used
      ensures request.token.value.before == old(state.current.value)
      ensures state.current.value == ToLazyObject(resolves)
    {
      request.before := Read(slugs, state.current.value);
      var token := state.Set(LazyObject(resolves));
      request.token := Some(token);
    }

    /** `_unbind_organization`, which `process_exception` and `process_response` share: exactly once. */
    method UnbindOrganization(request: Request)
      requires request.token.Some? ==> !request.token.value.used
      modifies request`token, state.current, if request.token.Some? then {request.token.value} else {}
      ensures request.token == None
      ensures old(request.token).Some? ==> old(request.token).value.used && state.current.value == old(request.token).value.before
      ensures old(request.token).None? ==> state.current.value == old(state.current.value)
    {
      if request.token.Some? {
        var token := request.token.value;
        request.token := None;
        var ok := state.Reset(token);
        assert ok;
      }
    }

    /** `__call__`, around a view. `inner` is what the middleware further in sets before the view runs,
        `outward` what it sets on the way out. When an exception escapes the view, Django asks each
        `process_exception`, from the inside out, until one has a response: `answeredInside` says that a
        middleware further in had one. Otherwise this one's runs, early; the exception may still come back
        as a response (`converted`), and then both hooks run for one request. The view starts with what the
        request resolves to, unless something further in has set otherwise (`atView`). */
    method Call(request: Request, resolves: Option<OrgId>, inner: seq<Selection>, plan: Plan, outward: seq<Selection>,
          answeredInside: bool, converted: bool)
      returns (raised: bool, atView: Binding)
      modifies request, state.current
      ensures request.token == None && request.before == Read(slugs, old(state.current.value))
      ensures atView == LastBinding(inner, ToLazyObject(resolves))
      ensures inner == [] ==> Read(slugs, atView) == resolves
      ensures var early := ViewEscapes(plan) && !answeredInside;
              && raised == (early && !converted)
              && state.current.value == (if early then LastBinding(outward, old(state.current.value)) else old(state.current.value))
              && (state.current.value == old(state.current.value) <==>
                    !early || outward == [] || Coerce(outward[|outward| - 1]) == old(state.current.value))
    {
      ProcessRequest(request, resolves);
      ghost var mine := request.token.value;
      SetAll(inner);
      atView := state.current.value;
      SelectedIsRead(slugs, LazyObject(resolves), if resolves.Some? then resolves.value else 0);
      var view := new View(state);
      var escaped, _, _ := view.Dispatch(plan);
      assert request.token == Some(mine) && !mine.used;
      var early := escaped && !answeredInside;
      if early {
        UnbindOrganization(request);
      }
      SetAll(outward);
      UnbindOrganization(request);
      raised := early && !converted;
    }

    method SetAll(selections: seq<Selection>)
      modifies state.current
      ensures state.current.value == LastBinding(selections, old(state.current.value))
    {
      for k := 0 to |selections|
        invariant state.current.value == if k == 0 then old(state.current.value) else Coerce(selections[k - 1])
      {
        var _ := state.Set(selections[k]);
      }
    }
  }

  /** A refusal never escapes by itself: unless authentication let an exception escape before, or the
      project's own code raises while the refusal is turned into a response, the middleware still holds
      its token when the response comes out, and restores the binding whatever was set. */
  lemma RefusalsDoNotEscape(plan: Plan, before: Binding)
    requires Resolved(plan).Failure?
    ensures DispatchEffects(plan, before).outcome.Escaped? <==>
            EndOf(plan.authentication).Escaped? || !EndOf(plan.handling).Running? || !EndOf(plan.finalizing).Running?
  {
    DispatchByScanning(plan, before);
  }
}
