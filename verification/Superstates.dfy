/**
 The client model and its compilation: superstates are flattened by copying missing events into each
 inheriting state, and each state's events become an if-else chain.
 */
module Superstates {
  import opened Options

  datatype Action = Action(name: string, message: string)

  /** `next` is None for an event that stays in its state; the event named * is the wildcard. */
  datatype Event = Event(name: string, next: Option<string>, actions: seq<Action>)

  datatype State = State(
    name: string, inherit: Option<string>, events: seq<Event>, before: seq<Action>, after: seq<Action>)

  type Model = seq<State>

  const WILDCARD := "*"

  predicate UniqueNames(m: Model) {
    forall i, j :: 0 <= i < j < |m| ==> m[i].name != m[j].name
  }

  function StateNamed(m: Model, name: string): (r: Option<nat>)
    ensures r.Some? ==> r.value < |m| && m[r.value].name == name
    ensures r.None? ==> forall i :: 0 <= i < |m| ==> m[i].name != name
  {
    if m == [] then None
    else if m[|m| - 1].name == name then Some(|m| - 1)
    else StateNamed(m[..|m| - 1], name)
  }

  function Parent(m: Model, i: nat): (p: Option<nat>)
    requires i < |m|
    ensures p.Some? ==> p.value < |m|
  {
    if m[i].inherit.None? then None else StateNamed(m, m[i].inherit.value)
  }

  /** The first event of that name. */
  function Find(events: seq<Event>, name: string): (r: Option<Event>)
    ensures r.Some? <==> Has(events, name)
    ensures r.Some? ==> r.value.name == name && r.value in events
  {
    if events == [] then None else if events[0].name == name then Some(events[0]) else Find(events[1..], name)
  }

  predicate Has(events: seq<Event>, name: string) {
    exists i :: 0 <= i < |events| && events[i].name == name
  }

  // ---------------------------------------------------------------- flattening

  /** `own`, and every inherited event whose name is not there yet. */
  function Merge(own: seq<Event>, inherited: seq<Event>): seq<Event> {
    if inherited == [] then own else
      var init, last := inherited[..|inherited| - 1], inherited[|inherited| - 1];
      var merged := Merge(own, init);
      if Has(merged, last.name) then merged else merged + [last]
  }

  /**
   The events of state i once it has been processed: a superstate declared earlier has been processed
   already, one declared later has not.
   */
  function FlatEvents(m: Model, i: nat): seq<Event>
    requires i < |m|
  {
    match Parent(m, i)
    case None => m[i].events
    case Some(p) => Merge(m[i].events, if p < i then FlatEvents(m, p) else m[p].events)
  }

  function Flatten(m: Model): (f: Model)
    ensures |f| == |m|
  {
    seq(|m|, i requires 0 <= i < |m| => m[i].(events := FlatEvents(m, i)))
  }

  /** The model while the generator rewrites it in place. */
  class Generator {
    var states: Model

    constructor (m: Model)
      ensures states == m
    {
      states := m;
    }

    /** Copy to state i every event of superstate j it does not have. */
    method Inherit(i: nat, j: nat)
      requires i < |states| && j < |states|
      modifies this
      ensures states == old(states)[i := old(states[i]).(events := Merge(old(states[i]).events, old(states[j]).events))]
    {
      ghost var own, theirs := states[i].events, states[j].events;
      for k := 0 to |states[j].events|
        invariant |states| == |old(states)|
        invariant states == old(states)[i := old(states[i]).(events := Merge(own, theirs[..k]))]
        invariant states[j].events == theirs
      {
        var event := states[j].events[k];
        assert theirs[..k + 1][..k] == theirs[..k];
        if i == j { MergeNothingNew(own, k); MergeNothingNew(own, k + 1); }
        if !Has(states[i].events, event.name) {
          states := states[i := states[i].(events := states[i].events + [event])];
        }
      }
      assert theirs[..|theirs|] == theirs;
    }

    /** Process super states, in declaration order: every state of the inherited name is a superstate. */
    method ProcessSuperstates()
      requires UniqueNames(states)
      modifies this
      ensures states == Flatten(old(states))
    {
      hide Flatten, FlatEvents, Merge, StateNamed;
      ghost var m := states;
      for i := 0 to |states|
        invariant |states| == |m|
        invariant forall s :: 0 <= s < i ==> states[s] == Flatten(m)[s]
        invariant forall s :: i <= s < |m| ==> states[s] == m[s]
      {
        FlattenAt(m, i);
        if states[i].inherit.Some? {
          var name := states[i].inherit.value;
          ghost var parent := Parent(m, i);
          for j := 0 to |states|
            invariant |states| == |m|
            invariant forall s :: 0 <= s < i ==> states[s] == Flatten(m)[s]
            invariant forall s :: i < s < |m| ==> states[s] == m[s]
            invariant states[i] == if parent.Some? && parent.value < j then Flatten(m)[i] else m[i]
          {
            FlattenAt(m, j);
            assert states[j].name == m[j].name;
            OnlyOne(m, name, j);
            if states[j].name == name {
              if j == i { MergeNothingNew(m[i].events, |m[i].events|); }
              Inherit(i, j);
            }
          }
        }
      }
    }
  }

  lemma OnlyOne(m: Model, name: string, j: nat)
    requires UniqueNames(m) && j < |m|
    ensures m[j].name == name <==> StateNamed(m, name) == Some(j)
  {
  }

  lemma FlattenAt(m: Model, i: nat)
    requires i < |m|
    ensures Flatten(m)[i] == m[i].(events :=
      match Parent(m, i)
      case None => m[i].events
      case Some(p) => Merge(m[i].events, if p < i then Flatten(m)[p].events else m[p].events))
  {
  }

  lemma {:induction false} MergeNothingNew(own: seq<Event>, k: nat)
    requires k <= |own|
    ensures Merge(own, own[..k]) == own
    ensures k == |own| ==> Merge(own, own) == own
  {
    if k == |own| { assert own[..k] == own; }
    if k > 0 {
      assert own[..k][..k - 1] == own[..k - 1];
      MergeNothingNew(own, k - 1);
    }
  }

  // ---------------------------------------------------------------- dispatch

  /** What a state does with an event: its handler of that name, else its wildcard, else nothing. */
  function Dispatch(events: seq<Event>, e: string): Option<Event> {
    if Has(events, e) then Find(events, e) else Find(events, WILDCARD)
  }

  /**
   The blocks the emitted chain runs for event e: `if` and `else if` for the named events in order, and
   the wildcard behind an `else` - except that a wildcard in first place is emitted without one.
   */
  function Blocks(events: seq<Event>, e: string): seq<Event> {
    var wildcard := Find(events, WILDCARD);
    var named := if e == WILDCARD then None else Find(events, e);
    var unguarded := wildcard.Some? && events[0].name == WILDCARD;
    (if named.Some? then [named.value] else [])
    + (if wildcard.Some? && (named.None? || unguarded) then [wildcard.value] else [])
  }

  /** The emitted chain runs exactly the documented block, except where a first wildcard meets a named event. */
  lemma BlocksAreDispatch(events: seq<Event>, e: string)
    requires e != WILDCARD
    ensures Blocks(events, e) == (if Dispatch(events, e).Some? then [Dispatch(events, e).value] else [])
       <==> !(events != [] && events[0].name == WILDCARD && Has(events, e))
  {
    if events != [] && events[0].name == WILDCARD { assert Has(events, WILDCARD); }
  }

  /** A state whose wildcard comes first runs two blocks for each of its named events. */
  lemma FirstWildcardRunsTwice()
    ensures var log, ping := Event(WILDCARD, None, [Action("log", "")]), Event("ping", None, []);
      Blocks([log, ping], "ping") == [ping, log]
  {
    var log, ping := Event(WILDCARD, None, [Action("log", "")]), Event("ping", None, []);
    assert [log, ping][0].name == WILDCARD && [log, ping][1].name == "ping";
    assert [log, ping][1..] == [ping];
  }

  // ---------------------------------------------------------------- the documented meaning

  /** The k-th state up the inherit chain. */
  function Ancestor(m: Model, i: nat, k: nat): (a: Option<nat>)
    requires i < |m|
    ensures a.Some? ==> a.value < |m|
  {
    if k == 0 then Some(i) else
      match Ancestor(m, i, k - 1)
      case None => None
      case Some(a) => Parent(m, a)
  }

  predicate Declares(m: Model, i: nat, k: nat, name: string)
    requires i < |m|
  {
    Ancestor(m, i, k).Some? && Has(m[Ancestor(m, i, k).value].events, name)
  }

  ghost predicate Nearest(m: Model, i: nat, name: string, k: nat)
    requires i < |m|
  {
    Declares(m, i, k, name) && forall k' :: 0 <= k' < k ==> !Declares(m, i, k', name)
  }

  /** The nearest event of that name up the chain, however long or circular the chain is. */
  ghost function Lookup(m: Model, i: nat, name: string): (r: Option<Event>)
    requires i < |m|
    ensures r.Some? ==> r.value.name == name
  {
    if exists k: nat :: Nearest(m, i, name, k) then
      var k: nat :| Nearest(m, i, name, k);
      Find(m[Ancestor(m, i, k).value].events, name)
    else None
  }

  /** Documented dispatch: the nearest handler of that name up the chain, else the nearest wildcard. */
  ghost function Documented(m: Model, i: nat, e: string): Option<Event>
    requires i < |m|
  {
    if Lookup(m, i, e).Some? then Lookup(m, i, e) else Lookup(m, i, WILDCARD)
  }

  // ---------------------------------------------------------------- flattening preserves meaning

  /** The states whose events reach state i: the chain, cut behind the first reference that is not backwards. */
  function Visible(m: Model, i: nat): (chain: seq<nat>)
    requires i < |m|
    ensures |chain| > 0 && chain[0] == i && forall k :: 0 <= k < |chain| ==> chain[k] < |m|
  {
    match Parent(m, i)
    case None => [i]
    case Some(p) => [i] + (if p < i then Visible(m, p) else [p])
  }

  /** The event of that name nearest along a chain of states. */
  function FindAlong(m: Model, chain: seq<nat>, name: string): Option<Event>
    requires forall k :: 0 <= k < |chain| ==> chain[k] < |m|
  {
    if chain == [] then None
    else if Has(m[chain[0]].events, name) then Find(m[chain[0]].events, name)
    else FindAlong(m, chain[1..], name)
  }

  /** No event name is declared only behind the cut. */
  ghost predicate Complete(m: Model, i: nat)
    requires i < |m|
  {
    forall k: nat, name :: Declares(m, i, k, name) ==> FindAlong(m, Visible(m, i), name).Some?
  }

  /** Every superstate on the way up from i is declared before the state that names it, or inherits nothing. */
  ghost predicate DeclaredFirst(m: Model) {
    forall i :: 0 <= i < |m| && Parent(m, i).Some? ==>
      Parent(m, i).value < i || Parent(m, Parent(m, i).value).None?
  }

  lemma {:induction false} FindInMerge(own: seq<Event>, inherited: seq<Event>, name: string)
    ensures Find(Merge(own, inherited), name) == if Has(own, name) then Find(own, name) else Find(inherited, name)
  {
    if inherited != [] {
      var init, last := inherited[..|inherited| - 1], inherited[|inherited| - 1];
      FindInMerge(own, init, name);
      assert inherited == init + [last];
      FindInAppend(init, last, name);
      FindInAppend(Merge(own, init), last, name);
    }
  }

  lemma {:induction false} FindInAppend(events: seq<Event>, last: Event, name: string)
    ensures Find(events + [last], name) ==
      if Has(events, name) then Find(events, name) else if last.name == name then Some(last) else None
  {
    if events != [] {
      assert (events + [last])[1..] == events[1..] + [last];
      FindInAppend(events[1..], last, name);
      if Has(events[1..], name) {
        var j :| 0 <= j < |events[1..]| && events[1..][j].name == name;
        assert events[j + 1].name == name;
      }
    }
  }

  /** The flattened state finds an event where the visible chain first declares it. */
  lemma {:induction false} FlatFinds(m: Model, i: nat, name: string)
    requires i < |m|
    ensures Find(FlatEvents(m, i), name) == FindAlong(m, Visible(m, i), name)
  {
    hide Has, Find, Merge;
    match Parent(m, i)
    case None => assert Visible(m, i) == [i];
    case Some(p) =>
      FindInMerge(m[i].events, if p < i then FlatEvents(m, p) else m[p].events, name);
      if p < i {
        FlatFinds(m, p, name);
        assert Visible(m, i)[1..] == Visible(m, p);
      } else {
        assert Visible(m, i)[1..] == [p] && [p][1..] == [];
        assert FindAlong(m, [p], name) == Find(m[p].events, name);
      }
  }

  lemma {:induction false} AncestorFromParent(m: Model, i: nat, k: nat)
    requires i < |m| && Parent(m, i).Some?
    ensures Ancestor(m, i, k + 1) == Ancestor(m, Parent(m, i).value, k)
  {
    if k > 0 { AncestorFromParent(m, i, k - 1); }
  }

  lemma {:induction false} NoAncestor(m: Model, i: nat, k: nat)
    requires i < |m| && Parent(m, i).None?
    ensures Ancestor(m, i, k + 1) == None
  {
    if k > 0 { NoAncestor(m, i, k - 1); }
  }

  lemma {:induction false} VisibleAncestor(m: Model, i: nat, k: nat)
    requires i < |m| && k < |Visible(m, i)|
    ensures Ancestor(m, i, k) == Some(Visible(m, i)[k])
  {
    if k > 0 {
      var p := Parent(m, i).value;
      AncestorFromParent(m, i, k - 1);
      if p < i { VisibleAncestor(m, p, k - 1); }
    }
  }

  lemma {:induction false} FirstAlong(m: Model, chain: seq<nat>, name: string) returns (j: nat)
    requires forall k :: 0 <= k < |chain| ==> chain[k] < |m|
    requires FindAlong(m, chain, name).Some?
    ensures j < |chain| && Has(m[chain[j]].events, name)
    ensures forall j' :: 0 <= j' < j ==> !Has(m[chain[j']].events, name)
    ensures FindAlong(m, chain, name) == Find(m[chain[j]].events, name)
  {
    hide Has, Find;
    if Has(m[chain[0]].events, name) {
      j := 0;
    } else {
      j := FirstAlong(m, chain[1..], name);
      j := j + 1;
    }
  }

  lemma NearestIsUnique(m: Model, i: nat, name: string, k: nat)
    requires i < |m| && Nearest(m, i, name, k)
    ensures Lookup(m, i, name) == Find(m[Ancestor(m, i, k).value].events, name)
  {
  }

  lemma {:induction false} SomeNearest(m: Model, i: nat, name: string, k: nat) returns (n: nat)
    requires i < |m| && Declares(m, i, k, name)
    ensures Nearest(m, i, name, n)
  {
    if k' : nat :| k' < k && Declares(m, i, k', name) {
      n := SomeNearest(m, i, name, k');
    } else {
      n := k;
    }
  }

  /** What the visible chain declares, flattening resolves as documented. */
  lemma VisibleLookup(m: Model, i: nat, name: string)
    requires i < |m| && FindAlong(m, Visible(m, i), name).Some?
    ensures Lookup(m, i, name) == FindAlong(m, Visible(m, i), name)
  {
    hide Has, Find, Ancestor, Visible, Lookup;
    var j := FirstAlong(m, Visible(m, i), name);
    VisibleAncestor(m, i, j);
    forall j' | 0 <= j' < j ensures !Declares(m, i, j', name) {
      VisibleAncestor(m, i, j');
    }
    NearestIsUnique(m, i, name, j);
  }

  /** An event of that name is declared by the state or somewhere up its chain. */
  ghost predicate Declared(m: Model, i: nat, name: string)
    requires i < |m|
  {
    exists k: nat :: Declares(m, i, k, name)
  }

  /** ... and by a state whose events reach this one. */
  predicate Reaches(m: Model, i: nat, name: string)
    requires i < |m|
  {
    FindAlong(m, Visible(m, i), name).Some?
  }

  /** The declaration that decides about event e, of that name or else the wildcard, reaches state i. */
  ghost predicate Resolves(m: Model, i: nat, e: string)
    requires i < |m|
  {
    if Declared(m, i, e) then Reaches(m, i, e) else Declared(m, i, WILDCARD) ==> Reaches(m, i, WILDCARD)
  }

  lemma ReachesIsDeclared(m: Model, i: nat, name: string)
    requires i < |m| && Reaches(m, i, name)
    ensures Declared(m, i, name) && Lookup(m, i, name) == Find(FlatEvents(m, i), name)
    ensures Lookup(m, i, name).Some?
  {
    hide Has, Find, Ancestor, Visible, Lookup, FlatEvents;
    var j := FirstAlong(m, Visible(m, i), name);
    VisibleAncestor(m, i, j);
    assert Declares(m, i, j, name);
    VisibleLookup(m, i, name);
    FlatFinds(m, i, name);
  }

  lemma DeclaredIsFound(m: Model, i: nat, name: string)
    requires i < |m|
    ensures Lookup(m, i, name).Some? <==> Declared(m, i, name)
    ensures Find(FlatEvents(m, i), name).Some? <==> Reaches(m, i, name)
  {
    hide Has, Find, Ancestor, Visible, FlatEvents, FindAlong;
    FlatFinds(m, i, name);
    if Declared(m, i, name) {
      var k: nat :| Declares(m, i, k, name);
      var n := SomeNearest(m, i, name, k);
      NearestIsUnique(m, i, name, n);
    }
  }

  /**
   Event by event: dispatch on the flattened table is documented dispatch precisely when the declaration
   that decides reaches the state.
   */
  lemma EventKeepsMeaning(m: Model, i: nat, e: string)
    requires i < |m|
    ensures Dispatch(FlatEvents(m, i), e) == Documented(m, i, e) <==> Resolves(m, i, e)
  {
    hide Lookup, Declared, Reaches, FlatEvents, Has, Find;
    DeclaredIsFound(m, i, e);
    DeclaredIsFound(m, i, WILDCARD);
    if Reaches(m, i, e) {
      ReachesIsDeclared(m, i, e);
    }
    if Reaches(m, i, WILDCARD) {
      ReachesIsDeclared(m, i, WILDCARD);
    }
  }

  /** The emitted chain runs exactly the documented block for event e in state i, or no block if there is none. */
  ghost predicate Faithful(m: Model, i: nat, e: string)
    requires i < |m|
  {
    var events := FlatEvents(m, i);
    Resolves(m, i, e) && !(e != WILDCARD && events != [] && events[0].name == WILDCARD && Has(events, e))
  }

  lemma BlocksAreDocumented(m: Model, i: nat, e: string)
    requires i < |m|
    ensures Blocks(FlatEvents(m, i), e) == (if Documented(m, i, e).Some? then [Documented(m, i, e).value] else [])
       <==> Faithful(m, i, e)
  {
    hide FlatEvents, Documented, Resolves, Has, Find;
    EventKeepsMeaning(m, i, e);
    BlocksOf(FlatEvents(m, i), e);
  }

  /** One block, that of dispatch, or the named block and then the wildcard's. */
  lemma BlocksOf(events: seq<Event>, e: string)
    ensures var both := e != WILDCARD && events != [] && events[0].name == WILDCARD && Has(events, e);
      && (both ==> |Blocks(events, e)| == 2)
      && (!both ==> Blocks(events, e) == if Dispatch(events, e).Some? then [Dispatch(events, e).value] else [])
  {
    if events != [] && events[0].name == WILDCARD { assert Has(events, WILDCARD); }
  }

  /**
   Flattening preserves meaning: for every model, every state and every event, dispatch on the
   flattened table is documented dispatch, precisely when no event name is declared only behind a
   reference to a superstate declared later.
   */
  lemma FlatteningPreservesMeaning(m: Model, i: nat)
    requires i < |m|
    ensures (forall e :: e != WILDCARD ==> Dispatch(FlatEvents(m, i), e) == Documented(m, i, e)) <==> Complete(m, i)
  {
    hide Lookup, Ancestor, Visible, FlatEvents, FindAlong, Has, Find;
    if Complete(m, i) {
      forall e | e != WILDCARD ensures Dispatch(FlatEvents(m, i), e) == Documented(m, i, e) {
        CompleteLookup(m, i, e);
        CompleteLookup(m, i, WILDCARD);
      }
    } else {
      var k: nat, name :| Declares(m, i, k, name) && FindAlong(m, Visible(m, i), name).None?;
      var n := SomeNearest(m, i, name, k);
      NearestIsUnique(m, i, name, n);
      FlatFinds(m, i, name);
      if name == WILDCARD {
        var e := Fresh(m, i);
        assert Dispatch(FlatEvents(m, i), e) != Documented(m, i, e);
      } else {
        assert Dispatch(FlatEvents(m, i), name) != Documented(m, i, name);
      }
    }
  }

  lemma CompleteLookup(m: Model, i: nat, name: string)
    requires i < |m| && Complete(m, i)
    ensures Find(FlatEvents(m, i), name) == Lookup(m, i, name)
  {
    hide Ancestor, Visible, FlatEvents, FindAlong, Has, Find;
    FlatFinds(m, i, name);
    if FindAlong(m, Visible(m, i), name).Some? { VisibleLookup(m, i, name); }
  }

  /** Declaring every superstate before its heirs, or giving it no superstate of its own, is enough. */
  lemma DeclaredFirstIsComplete(m: Model, i: nat)
    requires i < |m| && DeclaredFirst(m)
    ensures Complete(m, i)
  {
    forall k: nat, name | Declares(m, i, k, name) ensures FindAlong(m, Visible(m, i), name).Some? {
      DeclaredIsVisible(m, i, k, name);
    }
  }

  lemma {:induction false} DeclaredIsVisible(m: Model, i: nat, k: nat, name: string)
    requires i < |m| && DeclaredFirst(m) && Declares(m, i, k, name)
    ensures FindAlong(m, Visible(m, i), name).Some?
  {
    hide Has, Find;
    if k > 0 && !Has(m[i].events, name) {
      if Parent(m, i).None? {
        NoAncestor(m, i, k - 1);
      } else {
        var p := Parent(m, i).value;
        AncestorFromParent(m, i, k - 1);
        if p < i {
          DeclaredIsVisible(m, p, k - 1, name);
          assert Visible(m, i)[1..] == Visible(m, p);
        } else {
          if k > 1 { NoAncestor(m, p, k - 2); }
          assert Visible(m, i)[1..] == [p];
        }
      }
    }
  }

  /** Three states naming each other forwards: the grandparent's event never reaches the grandchild. */
  lemma ForwardChainLosesEvents()
    ensures var ping := Event("ping", None, []);
      var m := [State("a", Some("b"), [], [], []), State("b", Some("c"), [], [], []), State("c", None, [ping], [], [])];
      Dispatch(Flatten(m)[0].events, "ping") == None && Documented(m, 0, "ping") == Some(ping)
  {
    var ping := Event("ping", None, []);
    var m := [State("a", Some("b"), [], [], []), State("b", Some("c"), [], [], []), State("c", None, [ping], [], [])];
    assert m[..2] == [m[0], m[1]] && m[..2][..1] == [m[0]];
    assert StateNamed(m[..2], "b") == Some(1);
    assert Parent(m, 0) == Some(1) && Parent(m, 1) == Some(2) && Parent(m, 2) == None;
    assert Ancestor(m, 0, 1) == Some(1);
    assert Ancestor(m, 0, 2) == Some(2);
    assert [ping][0].name == "ping";
    assert Nearest(m, 0, "ping", 2);
    NearestIsUnique(m, 0, "ping", 2);
  }

  // ---------------------------------------------------------------- an event nobody names

  function EventNames(events: seq<Event>): string {
    if events == [] then "" else events[0].name + EventNames(events[1..])
  }

  function AllNames(m: Model): string {
    if m == [] then "xx" else EventNames(m[0].events) + AllNames(m[1..])
  }

  lemma {:induction false} NameFits(events: seq<Event>, name: string)
    requires Has(events, name)
    ensures |name| <= |EventNames(events)|
  {
    if events[0].name != name {
      var j :| 0 <= j < |events| && events[j].name == name;
      assert events[1..][j - 1].name == name;
      NameFits(events[1..], name);
    }
  }

  lemma {:induction false} NamesFit(m: Model, j: nat)
    requires j < |m|
    ensures |EventNames(m[j].events)| + 2 <= |AllNames(m)|
  {
    if j > 0 {
      NamesFit(m[1..], j - 1);
    } else {
      NotEmpty(m[1..]);
    }
  }

  lemma {:induction false} NotEmpty(m: Model)
    ensures |AllNames(m)| >= 2
  {
    if m != [] { NotEmpty(m[1..]); }
  }

  /** An event name no state declares. */
  lemma Fresh(m: Model, i: nat) returns (e: string)
    requires i < |m|
    ensures e != WILDCARD && Lookup(m, i, e) == None && Find(FlatEvents(m, i), e) == None
  {
    e := AllNames(m);
    NotEmpty(m);
    forall k: nat ensures !Declares(m, i, k, e) {
      if Declares(m, i, k, e) {
        var a := Ancestor(m, i, k).value;
        NameFits(m[a].events, e);
        NamesFit(m, a);
      }
    }
    FlatFinds(m, i, e);
    if FindAlong(m, Visible(m, i), e).Some? { VisibleLookup(m, i, e); }
  }
}
