/** `_state.py` and `state.py`: the organization bound to the current context, and the context managers
    that bind one for a block and put back what was there. */
module ContextBinding {
  import opened Outcomes
  import opened ContextVars

  type OrgId = nat

  /** What a caller may bind. A lazy object resolves to what `resolves` says, perhaps nothing. */
  datatype Selection = NoSelection | Instance(org: OrgId) | LazyObject(resolves: Option<OrgId>) | Slug(slug: string)

  /** What the context variable holds: a slug is kept lazy until it is read. */
  datatype Binding = Unbound | ToInstance(org: OrgId) | ToLazyObject(resolves: Option<OrgId>) | ToSlug(slug: string)

  /** `_coerce`. */
  function Coerce(selection: Selection): Binding {
    match selection
    case NoSelection => Unbound
    case Instance(org) => ToInstance(org)
    case LazyObject(resolves) => ToLazyObject(resolves)
    case Slug(slug) => ToSlug(slug)
  }

  /** `OrganizationState.get`: a lazy object that stands for nothing reads as nothing. */
  function Read(slugs: map<string, OrgId>, binding: Binding): Option<OrgId> {
    match binding
    case Unbound => None
    case ToInstance(org) => Some(org)
    case ToLazyObject(resolves) => resolves
    case ToSlug(slug) => if slug in slugs then Some(slugs[slug]) else None
  }

  /** What was selected is what is read: nothing, an organization, what a lazy object stands for, or the
      organization of a slug, if there is one. */
  lemma SelectedIsRead(slugs: map<string, OrgId>, selection: Selection, org: OrgId)
    ensures Read(slugs, Coerce(selection)) == Some(org) <==>
              || selection == Instance(org)
              || selection == LazyObject(Some(org))
              || (selection.Slug? && selection.slug in slugs && slugs[selection.slug] == org)
  {
  }

  class OrganizationState {
    const current: ContextVar<Binding>

    constructor ()
      ensures fresh(current) && current.value == Unbound
    {
      current := new ContextVar(Unbound);
    }

    /** `set`; `clear` is `set(None)`. */
    method Set(selection: Selection) returns (token: Token<Binding>)
      modifies current
      ensures current.value == Coerce(selection)
      ensures fresh(token) && !token.used && token.before == old(current.value)
    {
      token := current.Set(Coerce(selection));
    }

    method Reset(token: Token<Binding>) returns (ok: bool)
      modifies current, token
      ensures ok == !old(token.used) && token.used
      ensures current.value == if ok then token.before else old(current.value)
    {
      ok := current.Reset(token);
    }
  }

  /** A context manager that may be shared and entered again while it is open. */
  class OrganizationContext {
    const state: OrganizationState
    const organization: Selection
    var tokens: seq<Token<Binding>>

    constructor (state: OrganizationState, organization: Selection)
      ensures this.state == state && this.organization == organization && tokens == []
    {
      this.state, this.organization, tokens := state, organization, [];
    }

    /** `__enter__`. */
    method Enter()
      modifies this`tokens, state.current
      ensures state.current.value == Coerce(organization)
      ensures |tokens| == |old(tokens)| + 1 && tokens[..|old(tokens)|] == old(tokens)
      ensures var token := tokens[|old(tokens)|]; fresh(token) && !token.used && token.before == old(state.current.value)
    {
      var token := state.Set(organization);
      tokens := tokens + [token];
    }

    /** `__exit__`; it never swallows an exception. */
    method Exit() returns (ok: bool)
      requires tokens != []
      modifies this`tokens, state.current, tokens[|tokens| - 1]
      ensures tokens == old(tokens[..|tokens| - 1])
      ensures old(tokens[|tokens| - 1]).used && ok == !old(tokens[|tokens| - 1].used)
      ensures state.current.value == if ok then old(tokens[|tokens| - 1]).before else old(state.current.value)
    {
      var token := tokens[|tokens| - 1];
      tokens := tokens[..|tokens| - 1];
      ok := state.Reset(token);
    }
  }

  // -------------------------------------------------------------- blocks, on the heap

  /** Code running under shared context objects: bare binds, blocks in any nesting, the same object as
      often as one likes, and exceptions. */
  datatype Statement = Bind(selection: Selection) | Raise | Block(context: nat, body: seq<Statement>)

  predicate Known(program: seq<Statement>, contexts: nat) {
    forall s :: s in program ==> s.Block? ==> s.context < contexts && Known(s.body, contexts)
  }

  /** What a program does to the binding, and whether it raises: a block does nothing to it. */
  function Meaning(program: seq<Statement>, binding: Binding, organizations: seq<Selection>): (Binding, bool)
    requires Known(program, |organizations|)
  {
    if program == [] then (binding, false)
    else
      var first := program[0];
      match first
      case Raise => (binding, true)
      case Bind(selection) => Meaning(program[1..], Coerce(selection), organizations)
      case Block(context, body) =>
        if Meaning(body, Coerce(organizations[context]), organizations).1 then (binding, true)
        else Meaning(program[1..], binding, organizations)
  }

  /** One statement alone: an exception changes nothing, a bare bind binds, and a block only passes on
      whether its body, run under its own organization, raised. */
  lemma MeaningOfOne(statement: Statement, binding: Binding, organizations: seq<Selection>)
    requires Known([statement], |organizations|)
    ensures statement.Raise? ==> Meaning([statement], binding, organizations) == (binding, true)
    ensures statement.Bind? ==> Meaning([statement], binding, organizations) == (Coerce(statement.selection), false)
    ensures statement.Block? ==>
              && statement.context < |organizations| && Known(statement.body, |organizations|)
              && Meaning([statement], binding, organizations) ==
                 (binding, Meaning(statement.body, Coerce(organizations[statement.context]), organizations).1)
  {
    var one := [statement];
    assert one[1..] == [] && statement in one;
  }

  /** One program after another: the second runs, from what the first left bound, unless the first
      raised. */
  lemma {:induction false} MeaningInSequence(a: seq<Statement>, b: seq<Statement>, binding: Binding,
        organizations: seq<Selection>)
    requires Known(a, |organizations|) && Known(b, |organizations|) && Known(a + b, |organizations|)
    ensures Meaning(a + b, binding, organizations) ==
            var (left, raised) := Meaning(a, binding, organizations);
            if raised then (left, true) else Meaning(b, left, organizations)
    decreases |a|
  {
    if a == [] {
      assert a + b == b;
    } else {
      assert (a + b)[0] == a[0] && (a + b)[1..] == a[1..] + b;
      assert forall s :: s in a[1..] ==> s in a;
      match a[0]
      case Raise =>
      case Bind(selection) => MeaningInSequence(a[1..], b, Coerce(selection), organizations);
      case Block(context, body) => MeaningInSequence(a[1..], b, binding, organizations);
    }
  }

  /** Run with real token stacks, every program has that meaning, and hands every stack back as it found
      it: each exit popped what its own enter pushed, unused until then. */
  method Execute(program: seq<Statement>, contexts: seq<OrganizationContext>, state: OrganizationState,
        organizations: seq<Selection>)
    returns (raised: bool)
    requires |organizations| == |contexts| && Known(program, |contexts|)
    requires forall c :: 0 <= c < |contexts| ==> contexts[c].state == state && contexts[c].organization == organizations[c]
    modifies (set c | c in contexts)`tokens, state.current
    ensures (state.current.value, raised) == Meaning(program, old(state.current.value), organizations)
    ensures forall c :: c in contexts ==> c.tokens == old(c.tokens)
    decreases program
  {
    if program == [] {
      return false;
    }
    var first := program[0];
    if first.Raise? {
      return true;
    }
    if first.Bind? {
      var _ := state.Set(first.selection);
    } else {
      var context := contexts[first.context];
      ghost var before := context.tokens;
      context.Enter();
      ghost var mine := context.tokens[|before|];
      raised := Execute(first.body, contexts, state, organizations);
      assert context.tokens[|context.tokens| - 1] == mine && !mine.used;
      var ok := context.Exit();
      assert ok;
      if raised {
        return true;
      }
    }
    raised := Execute(program[1..], contexts, state, organizations);
  }

  // ------------------------------------------------------------------ every moment of a run

  type Context = nat
  type TokenId = nat

  datatype Event = Enter(context: Context) | Exit(context: Context) | Set(selection: Selection)

  datatype Issued = Issued(before: Binding, resets: nat)

  /** An enter that is still open: the event that made it, and the token it pushed. */
  datatype Open = Open(context: Context, token: TokenId, at: nat)

  datatype Moment = Moment(
    binding: Binding,
    issued: seq<Issued>,
    stacks: map<Context, seq<TokenId>>,
    open: seq<Open>,
    clock: nat,
    failed: bool)

  function Initially(binding: Binding): Moment { Moment(binding, [], map[], [], 0, false) }

  function StackOf(now: Moment, context: Context): seq<TokenId> {
    if context in now.stacks then now.stacks[context] else []
  }

  /** `failed` is a pop from an empty list or a second use of a token. */
  function Happen(now: Moment, event: Event, organizations: Context -> Selection): Moment {
    match event
    case Set(selection) =>
      now.(binding := Coerce(selection), issued := now.issued + [Issued(now.binding, 0)], clock := now.clock + 1)
    case Enter(context) =>
      var token := |now.issued|;
      Moment(Coerce(organizations(context)), now.issued + [Issued(now.binding, 0)],
        now.stacks[context := StackOf(now, context) + [token]],
        now.open + [Open(context, token, now.clock)], now.clock + 1, now.failed)
    case Exit(context) =>
      var stack := StackOf(now, context);
      if stack == [] || stack[|stack| - 1] >= |now.issued| || now.issued[stack[|stack| - 1]].resets > 0 || now.open == []
      then now.(clock := now.clock + 1, failed := true)
      else
        var token := stack[|stack| - 1];
        Moment(now.issued[token].before, now.issued[token := now.issued[token].(resets := 1)],
          now.stacks[context := stack[..|stack| - 1]], now.open[..|now.open| - 1], now.clock + 1, now.failed)
  }

  /** The three events: a set and an enter bind and issue a token, which the enter keeps; an exit resets
      the newest token its object keeps, and fails exactly when there is none or it has been used. */
  lemma EventsMean(now: Moment, event: Event, organizations: Context -> Selection)
    ensures
      var after := Happen(now, event, organizations);
      match event
      case Set(selection) =>
        && after.binding == Coerce(selection) && after.stacks == now.stacks && after.open == now.open
        && after.failed == now.failed && after.issued == now.issued + [Issued(now.binding, 0)]
      case Enter(context) =>
        && after.binding == Coerce(organizations(context)) && StackOf(after, context) == StackOf(now, context) + [|now.issued|]
        && (forall c :: c != context ==> StackOf(after, c) == StackOf(now, c))
        && after.failed == now.failed && after.issued == now.issued + [Issued(now.binding, 0)]
      case Exit(context) =>
        var stack := StackOf(now, context);
        var usable := stack != [] && stack[|stack| - 1] < |now.issued| && now.issued[stack[|stack| - 1]].resets == 0 && now.open != [];
        && (after.failed <==> now.failed || !usable)
        && (usable ==> after.binding == now.issued[stack[|stack| - 1]].before && StackOf(after, context) == stack[..|stack| - 1]
                       && after.issued[stack[|stack| - 1]].resets == 1)
        && (!usable ==> after.binding == now.binding && after.stacks == now.stacks && after.issued == now.issued)
    ensures Happen(now, event, organizations).clock == now.clock + 1
  {
  }

  function After(start: Binding, events: seq<Event>, organizations: Context -> Selection): Moment
    decreases |events|
  {
    if events == [] then Initially(start)
    else Happen(After(start, events[..|events| - 1], organizations), events[|events| - 1], organizations)
  }

  /** An exit is of the object entered last, among those still open. */
  predicate Closes(now: Moment, event: Event) {
    event.Exit? ==> now.open != [] && now.open[|now.open| - 1].context == event.context
  }

  predicate ClosesAt(start: Binding, events: seq<Event>, k: nat, organizations: Context -> Selection)
    requires k < |events|
  {
    Closes(After(start, events[..k], organizations), events[k])
  }

  /** Blocks nest. */
  ghost predicate WellNested(start: Binding, events: seq<Event>, organizations: Context -> Selection) {
    forall k :: 0 <= k < |events| ==> ClosesAt(start, events, k, organizations)
  }

  lemma PrefixIsWellNested(start: Binding, events: seq<Event>, k: nat, organizations: Context -> Selection)
    requires WellNested(start, events, organizations) && k <= |events|
    ensures WellNested(start, events[..k], organizations)
  {
    forall j | 0 <= j < k ensures ClosesAt(start, events[..k], j, organizations) {
      assert ClosesAt(start, events, j, organizations);
      assert events[..k][..j] == events[..j];
    }
  }

  /** Blocks nest as one would write them: none, a bare set, one after another, and one around a nested
      run of others. */
  lemma OpeningAndSettingNest(start: Binding, events: seq<Event>, event: Event, organizations: Context -> Selection)
    requires WellNested(start, events, organizations)
    requires event.Exit? ==>
               var open := After(start, events, organizations).open; open != [] && open[|open| - 1].context == event.context
    ensures WellNested(start, events + [event], organizations) && WellNested(start, [], organizations)
  {
    var longer := events + [event];
    forall k | 0 <= k < |longer| ensures ClosesAt(start, longer, k, organizations) {
      assert longer[..k] == events[..k];
      if k < |events| { assert ClosesAt(start, events, k, organizations); } else { assert events[..k] == events; }
    }
  }

  /** The open enters of one object, in order. */
  function Projection(open: seq<Open>, context: Context): seq<TokenId>
    decreases |open|
  {
    if open == [] then []
    else Projection(open[..|open| - 1], context) + (if open[|open| - 1].context == context then [open[|open| - 1].token] else [])
  }

  /** One open enter: its event, what was bound and open just before it, and its token, still unused. */
  ghost predicate Opened(start: Binding, events: seq<Event>, organizations: Context -> Selection, now: Moment, j: nat)
    requires j < |now.open|
  {
    var open := now.open[j];
    && open.at < |events| && events[open.at] == Enter(open.context)
    && open.token < |now.issued|
    && now.issued[open.token] == Issued(After(start, events[..open.at], organizations).binding, 0)
    && After(start, events[..open.at], organizations).open == now.open[..j]
    && |After(start, events[..open.at], organizations).issued| == open.token
  }

  ghost predicate Consistent(start: Binding, events: seq<Event>, organizations: Context -> Selection) {
    var now := After(start, events, organizations);
    && now.clock == |events| && !now.failed
    && (forall c :: StackOf(now, c) == Projection(now.open, c))
    && (forall j :: 0 <= j < |now.open| ==> Opened(start, events, organizations, now, j))
    && (forall i, j :: 0 <= i < j < |now.open| ==> now.open[i].token < now.open[j].token)
    && (forall t :: 0 <= t < |now.issued| ==> now.issued[t].resets <= 1)
  }

  lemma NothingHappened(start: Binding, organizations: Context -> Selection)
    ensures Consistent(start, [], organizations)
  {
  }

  /** At every moment of a well-nested run each object's stack is the projection of the open enters, no
      token has been used twice, and nothing has failed. */
  lemma {:induction false} RunsAreConsistent(start: Binding, events: seq<Event>, organizations: Context -> Selection)
    requires WellNested(start, events, organizations)
    ensures Consistent(start, events, organizations)
    decreases |events|
  {
    if events == [] {
      NothingHappened(start, organizations);
    } else {
      var earlier, event := events[..|events| - 1], events[|events| - 1];
      PrefixIsWellNested(start, events, |events| - 1, organizations);
      RunsAreConsistent(start, earlier, organizations);
      assert ClosesAt(start, events, |events| - 1, organizations);
      assert earlier + [event] == events;
      EventKeepsConsistent(start, earlier, event, organizations);
    }
  }

  lemma OpenedStays(start: Binding, events: seq<Event>, event: Event, organizations: Context -> Selection,
        now: Moment, after: Moment, j: nat)
    requires j < |now.open| && j < |after.open| && now.open[..j + 1] == after.open[..j + 1]
    requires Opened(start, events, organizations, now, j)
    requires now.open[j].token < |after.issued| && after.issued[now.open[j].token] == now.issued[now.open[j].token]
    ensures Opened(start, events + [event], organizations, after, j)
  {
    assert after.open[j] == after.open[..j + 1][j] == now.open[j];
    assert (events + [event])[..now.open[j].at] == events[..now.open[j].at];
    assert now.open[..j] == now.open[..j + 1][..j] == after.open[..j];
  }

  lemma ProjectionOfMore(open: seq<Open>, one: Open, c: Context)
    ensures Projection(open + [one], c) == Projection(open, c) + (if one.context == c then [one.token] else [])
  {
    assert (open + [one])[..|open|] == open;
  }

  lemma EventKeepsConsistent(start: Binding, earlier: seq<Event>, event: Event, organizations: Context -> Selection)
    requires Consistent(start, earlier, organizations)
    requires Closes(After(start, earlier, organizations), event)
    ensures Consistent(start, earlier + [event], organizations)
  {
    var now := After(start, earlier, organizations);
    assert (earlier + [event])[..|earlier|] == earlier;
    assert After(start, earlier + [event], organizations) == Happen(now, event, organizations);
    if event.Enter? {
      EnterKeepsConsistent(start, earlier, event, organizations, now, Happen(now, event, organizations));
    } else if event.Exit? {
      ExitKeepsConsistent(start, earlier, event, organizations, now, Happen(now, event, organizations));
    } else {
      var after := Happen(now, event, organizations);
      forall j | 0 <= j < |after.open| ensures Opened(start, earlier + [event], organizations, after, j) {
        OpenedStays(start, earlier, event, organizations, now, after, j);
      }
    }
  }

  lemma EnterKeepsConsistent(start: Binding, earlier: seq<Event>, event: Event, organizations: Context -> Selection,
        now: Moment, after: Moment)
    requires now == After(start, earlier, organizations) && Consistent(start, earlier, organizations)
    requires event.Enter? && after == Happen(now, event, organizations) == After(start, earlier + [event], organizations)
    ensures Consistent(start, earlier + [event], organizations)
  {
    hide After, Opened, Projection;
    var one := Open(event.context, |now.issued|, now.clock);
    forall c ensures StackOf(after, c) == Projection(after.open, c) {
      ProjectionOfMore(now.open, one, c);
    }
    TokensAreOlder(start, earlier, organizations, now);
    OpenAfterEnter(start, earlier, event, organizations, now, after);
  }

  lemma OpenAfterEnter(start: Binding, earlier: seq<Event>, event: Event, organizations: Context -> Selection,
        now: Moment, after: Moment)
    requires now == After(start, earlier, organizations) && now.clock == |earlier|
    requires forall j :: 0 <= j < |now.open| ==> Opened(start, earlier, organizations, now, j)
    requires event.Enter? && after == Happen(now, event, organizations)
    ensures forall j :: 0 <= j < |after.open| ==> Opened(start, earlier + [event], organizations, after, j)
  {
    forall j | 0 <= j < |after.open| ensures Opened(start, earlier + [event], organizations, after, j) {
      if j < |now.open| {
        OpenedStays(start, earlier, event, organizations, now, after, j);
      } else {
        NewlyOpened(start, earlier, event, organizations, now, after);
      }
    }
  }

  lemma NewlyOpened(start: Binding, earlier: seq<Event>, event: Event, organizations: Context -> Selection,
        now: Moment, after: Moment)
    requires now == After(start, earlier, organizations) && now.clock == |earlier|
    requires event.Enter? && after == Happen(now, event, organizations)
    ensures Opened(start, earlier + [event], organizations, after, |now.open|)
  {
    assert after.open[..|now.open|] == now.open && (earlier + [event])[..|earlier|] == earlier;
  }

  lemma TokensAreOlder(start: Binding, events: seq<Event>, organizations: Context -> Selection, now: Moment)
    requires now == After(start, events, organizations) && Consistent(start, events, organizations)
    ensures forall j :: 0 <= j < |now.open| ==> now.open[j].token < |now.issued| && now.issued[now.open[j].token].resets == 0
  {
    forall j | 0 <= j < |now.open| ensures now.open[j].token < |now.issued| && now.issued[now.open[j].token].resets == 0 {
      assert Opened(start, events, organizations, now, j);
    }
  }

  lemma ExitKeepsConsistent(start: Binding, earlier: seq<Event>, event: Event, organizations: Context -> Selection,
        now: Moment, after: Moment)
    requires now == After(start, earlier, organizations) && Consistent(start, earlier, organizations)
    requires event.Exit? && Closes(now, event)
    requires after == Happen(now, event, organizations) == After(start, earlier + [event], organizations)
    ensures Consistent(start, earlier + [event], organizations)
  {
    hide After, Opened, Projection, Happen;
    var top, rest := now.open[|now.open| - 1], now.open[..|now.open| - 1];
    TokensAreOlder(start, earlier, organizations, now);
    assert now.open == rest + [top];
    ProjectionOfMore(rest, top, event.context);
    ExitPops(now, event, organizations, Projection(rest, event.context));
    forall c ensures StackOf(after, c) == Projection(after.open, c) {
      ProjectionOfMore(rest, top, c);
    }
    forall j | 0 <= j < |after.open| ensures Opened(start, earlier + [event], organizations, after, j) {
      assert rest[..j + 1] == now.open[..j + 1];
      OpenedStays(start, earlier, event, organizations, now, after, j);
    }
  }

  lemma ExitPops(now: Moment, event: Event, organizations: Context -> Selection, below: seq<TokenId>)
    requires event.Exit? && now.open != []
    requires var token := now.open[|now.open| - 1].token;
             StackOf(now, event.context) == below + [token] && token < |now.issued| && now.issued[token].resets == 0
    ensures var token := now.open[|now.open| - 1].token;
            Happen(now, event, organizations) ==
            Moment(now.issued[token].before, now.issued[token := now.issued[token].(resets := 1)],
              now.stacks[event.context := below], now.open[..|now.open| - 1], now.clock + 1, now.failed)
  {
  }

  /** `after`, where the exit has happened, against `before`, where its enter had not. */
  ghost predicate Undone(before: Moment, now: Moment, after: Moment, context: Context) {
    && after.binding == before.binding && after.open == before.open
    && (forall c :: StackOf(after, c) == StackOf(before, c))
    && StackOf(now, context) == StackOf(before, context) + [|before.issued|]
    && |before.issued| < |now.issued| && now.issued[|before.issued|].resets == 0
    && |before.issued| < |after.issued| && after.issued[|before.issued|].resets == 1
  }

  /** Each exit pops the token its own enter pushed, uses it for the first time, and leaves the binding
      and every object's stack as they were before that enter. */
  lemma ExitUndoesItsEnter(start: Binding, events: seq<Event>, context: Context, organizations: Context -> Selection)
    requires WellNested(start, events + [Exit(context)], organizations)
    ensures exists k :: 0 <= k < |events| && events[k] == Enter(context)
                        && Undone(After(start, events[..k], organizations), After(start, events, organizations),
                             After(start, events + [Exit(context)], organizations), context)
  {
    var all, now := events + [Exit(context)], After(start, events, organizations);
    var after := After(start, all, organizations);
    assert all[..|events|] == events && all[|events|] == Exit(context);
    assert ClosesAt(start, all, |events|, organizations);
    PrefixIsWellNested(start, all, |events|, organizations);
    RunsAreConsistent(start, events, organizations);
    RunsAreConsistent(start, all, organizations);
    var enter := now.open[|now.open| - 1];
    assert Opened(start, events, organizations, now, |now.open| - 1);
    PrefixIsWellNested(start, events, enter.at, organizations);
    RunsAreConsistent(start, events[..enter.at], organizations);
    ExitUndoes(events, organizations, start, After(start, events[..enter.at], organizations), now, after, context);
  }

  lemma ExitUndoes(events: seq<Event>, organizations: Context -> Selection, start: Binding, before: Moment,
        now: Moment, after: Moment, context: Context)
    requires now == After(start, events, organizations) && Closes(now, Exit(context)) && after == Happen(now, Exit(context), organizations)
    requires Opened(start, events, organizations, now, |now.open| - 1)
    requires before == After(start, events[..now.open[|now.open| - 1].at], organizations)
    requires forall c :: StackOf(before, c) == Projection(before.open, c) && StackOf(now, c) == Projection(now.open, c)
    requires forall c :: StackOf(after, c) == Projection(after.open, c)
    requires !after.failed
    ensures Undone(before, now, after, context)
  {
    hide After, Projection, Happen;
    var enter := now.open[|now.open| - 1];
    assert now.open == before.open + [enter];
    ProjectionOfMore(before.open, enter, context);
    ExitPops(now, Exit(context), organizations, Projection(before.open, context));
  }

  /** An exit without an enter of the same object to undo fails, and unbinds nothing. */
  lemma UnmatchedExitFails(start: Binding, events: seq<Event>, context: Context, organizations: Context -> Selection)
    requires WellNested(start, events, organizations)
    requires forall j :: 0 <= j < |After(start, events, organizations).open| ==> After(start, events, organizations).open[j].context != context
    ensures
      var now, after := After(start, events, organizations), After(start, events + [Exit(context)], organizations);
      after.failed && after.binding == now.binding
  {
    var now := After(start, events, organizations);
    RunsAreConsistent(start, events, organizations);
    NothingProjected(now.open, context);
    assert (events + [Exit(context)])[..|events|] == events;
  }

  lemma {:induction false} NothingProjected(open: seq<Open>, context: Context)
    requires forall j :: 0 <= j < |open| ==> open[j].context != context
    ensures Projection(open, context) == []
    decreases |open|
  {
    if open != [] { NothingProjected(open[..|open| - 1], context); }
  }
}
