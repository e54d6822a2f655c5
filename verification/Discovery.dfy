/**
 Market discovery: handlers of new-market events run side by side and share the set of
 started markets. What a handler fetched and how its trader start ends are inputs.
 */
module Discovery {
  import opened Wrappers
  import opened Text

  /** Where a handler stands; `id` is the trimmed condition ID it has marked. */
  datatype Handler = Fetched(conditionID: string) | Starting(id: string) | StartFailed(id: string) | Finished

  datatype World = World(started: set<string>, handlers: map<nat, Handler>, traders: seq<string>)

  datatype Event =
    | Fetch(h: nat, conditionID: string)
    | Mark(h: nat)
    | StartSucceeds(h: nat)
    | StartFails(h: nat)
    | Unmark(h: nat)

  function Marked(started: set<string>, conditionID: string): bool {
    TrimSpace(conditionID) != "" && TrimSpace(conditionID) !in started
  }

  /** One atomic step of one handler; None when that handler is not at that point. */
  function Step(w: World, e: Event): Option<World> {
    match e
    case Fetch(h, conditionID) =>
      if h in w.handlers then None else Some(w.(handlers := w.handlers[h := Fetched(conditionID)]))
    case Mark(h) =>
      if h !in w.handlers || !w.handlers[h].Fetched? then None
      else
        var id := TrimSpace(w.handlers[h].conditionID);
        if Marked(w.started, w.handlers[h].conditionID)
        then Some(w.(started := w.started + {id}, handlers := w.handlers[h := Starting(id)]))
        else Some(w.(handlers := w.handlers[h := Finished]))
    case StartSucceeds(h) =>
      if h !in w.handlers || !w.handlers[h].Starting? then None
      else Some(w.(traders := w.traders + [w.handlers[h].id], handlers := w.handlers[h := Finished]))
    case StartFails(h) =>
      if h !in w.handlers || !w.handlers[h].Starting? then None
      else Some(w.(handlers := w.handlers[h := StartFailed(w.handlers[h].id)]))
    case Unmark(h) =>
      if h !in w.handlers || !w.handlers[h].StartFailed? then None
      else Some(w.(started := w.started - {w.handlers[h].id}, handlers := w.handlers[h := Finished]))
  }

  function Run(w: World, events: seq<Event>): Option<World> {
    if events == [] then Some(w)
    else
      match Run(w, events[..|events| - 1])
      case None => None
      case Some(w') => Step(w', events[|events| - 1])
  }

  /** The trimmed, non-empty seeds. */
  function Seeds(ids: seq<string>): set<string> {
    if ids == [] then {}
    else Seeds(ids[..|ids| - 1]) + if TrimSpace(ids[|ids| - 1]) == "" then {} else {TrimSpace(ids[|ids| - 1])}
  }

  lemma {:induction false} SeedsMeaning(ids: seq<string>, id: string)
    ensures id in Seeds(ids) <==> id != "" && exists i :: 0 <= i < |ids| && TrimSpace(ids[i]) == id
  {
    if ids != [] {
      var n := |ids| - 1;
      SeedsMeaning(ids[..n], id);
      assert forall i :: 0 <= i < n ==> ids[..n][i] == ids[i];
    }
  }

  // The shared set.

  class ATPMarketDiscovery {
    var startedSet: set<string>

    constructor (seedConditionIDs: seq<string>)
      ensures startedSet == Seeds(seedConditionIDs)
      ensures forall id :: id in startedSet <==>
                             id != "" && exists i :: 0 <= i < |seedConditionIDs| && TrimSpace(seedConditionIDs[i]) == id
    {
      startedSet := {};
      new;
      for i := 0 to |seedConditionIDs|
        invariant startedSet == Seeds(seedConditionIDs[..i])
      {
        assert seedConditionIDs[..i + 1][..i] == seedConditionIDs[..i];
        var id := TrimSpace(seedConditionIDs[i]);
        if id == "" {
          continue;
        }
        startedSet := startedSet + {id};
      }
      assert seedConditionIDs[..|seedConditionIDs|] == seedConditionIDs;
      forall id
        ensures id in startedSet <==>
                  id != "" && exists i :: 0 <= i < |seedConditionIDs| && TrimSpace(seedConditionIDs[i]) == id
      {
        SeedsMeaning(seedConditionIDs, id);
      }
    }

    /** Claims a market: true for exactly one of any number of claims until it is given back. */
    method MarkStarted(conditionID: string) returns (ok: bool)
      modifies this
      ensures ok == Marked(old(startedSet), conditionID)
      ensures ok <==> TrimSpace(conditionID) != "" && TrimSpace(conditionID) !in old(startedSet)
      ensures startedSet == if ok then old(startedSet) + {TrimSpace(conditionID)} else old(startedSet)
    {
      var id := TrimSpace(conditionID);
      if id == "" {
        return false;
      }
      if id in startedSet {
        return false;
      }
      startedSet := startedSet + {id};
      return true;
    }

    method UnmarkStarted(conditionID: string)
      modifies this
      ensures startedSet == if TrimSpace(conditionID) == "" then old(startedSet) else old(startedSet) - {TrimSpace(conditionID)}
    {
      var id := TrimSpace(conditionID);
      if id == "" {
        return;
      }
      startedSet := startedSet - {id};
    }
  }

  // What holds over all interleavings.

  predicate Holds(x: Handler, id: string) {
    (x.Starting? || x.StartFailed?) && x.id == id
  }

  /** Handler h is starting a trader for `id`, or has failed to and not yet said so. */
  predicate BeingStarted(w: World, h: nat, id: string) {
    h in w.handlers && Holds(w.handlers[h], id)
  }

  ghost predicate SomeoneStarting(w: World, id: string) {
    exists h :: BeingStarted(w, h, id)
  }

  predicate Distinct(ids: seq<string>) {
    forall i, j :: 0 <= i < j < |ids| ==> ids[i] != ids[j]
  }

  /** The trimmed form of some text, and not empty. */
  ghost predicate Trimmed(id: string) {
    id != "" && exists conditionID :: TrimSpace(conditionID) == id
  }

  ghost predicate Inv(seeds: set<string>, w: World) {
    && (forall id :: id in w.started <==> id in seeds || id in w.traders || SomeoneStarting(w, id))
    && (forall h, h', id :: BeingStarted(w, h, id) && BeingStarted(w, h', id) ==> h == h')
    && (forall h, id :: BeingStarted(w, h, id) ==> id !in seeds && id !in w.traders)
    && (forall id :: id in w.traders ==> id !in seeds)
    && (forall id :: id in w.started && id !in seeds ==> Trimmed(id))
    && Distinct(w.traders)
  }

  lemma HandlersAfter(w: World, h: nat, x: Handler, w': World)
    requires w'.handlers == w.handlers[h := x]
    ensures forall k, id :: k != h ==> (BeingStarted(w', k, id) <==> BeingStarted(w, k, id))
    ensures forall id :: BeingStarted(w', h, id) <==> Holds(x, id)
    ensures forall id :: SomeoneStarting(w', id) <==> Holds(x, id) || exists k :: k != h && BeingStarted(w, k, id)
  {
    forall id
      ensures SomeoneStarting(w', id) <==> Holds(x, id) || exists k :: k != h && BeingStarted(w, k, id)
    {
      if Holds(x, id) {
        assert BeingStarted(w', h, id);
      }
      if k :| k != h && BeingStarted(w, k, id) {
        assert BeingStarted(w', k, id);
      }
      if SomeoneStarting(w', id) {
        var k :| BeingStarted(w', k, id);
        assert k != h ==> BeingStarted(w, k, id);
      }
    }
  }

  lemma StepKeepsInv(seeds: set<string>, w: World, e: Event)
    requires Inv(seeds, w) && Step(w, e).Some?
    ensures Inv(seeds, Step(w, e).value)
  {
    var w' := Step(w, e).value;
    HandlersAfter(w, e.h, w'.handlers[e.h], w');
    assert forall id :: SomeoneStarting(w, id) <==> exists k :: BeingStarted(w, k, id);
    if e.StartSucceeds? {
      assert BeingStarted(w, e.h, w.handlers[e.h].id);
    }
    if e.Unmark? || e.StartFails? {
      assert BeingStarted(w, e.h, w.handlers[e.h].id);
    }
  }

  function Initial(seedIDs: seq<string>): World {
    World(Seeds(seedIDs), map[], [])
  }

  lemma {:induction false} RunKeepsInv(seedIDs: seq<string>, events: seq<Event>)
    requires Run(Initial(seedIDs), events).Some?
    ensures Inv(Seeds(seedIDs), Run(Initial(seedIDs), events).value)
  {
    if events == [] {
      assert forall id :: !SomeoneStarting(Initial(seedIDs), id);
    } else {
      RunKeepsInv(seedIDs, events[..|events| - 1]);
      StepKeepsInv(Seeds(seedIDs), Run(Initial(seedIDs), events[..|events| - 1]).value, events[|events| - 1]);
    }
  }

  function Starts(traders: seq<string>, id: string): nat {
    if traders == [] then 0 else Starts(traders[..|traders| - 1], id) + if traders[|traders| - 1] == id then 1 else 0
  }

  lemma {:induction false} DistinctStarts(traders: seq<string>, id: string)
    requires Distinct(traders)
    ensures Starts(traders, id) == if id in traders then 1 else 0
  {
    if traders != [] {
      DistinctStarts(traders[..|traders| - 1], id);
      assert traders == traders[..|traders| - 1] + [traders[|traders| - 1]];
    }
  }

  predicate Seeded(seedIDs: seq<string>, id: string) {
    id != "" && exists i :: 0 <= i < |seedIDs| && TrimSpace(seedIDs[i]) == id
  }

  /**
   However the handlers interleave, a market gets at most one trader, and none if it was seeded; it is in the set exactly
   when seeded, started or being started, by one handler; and every trader's market is named and trimmed.
   */
  lemma StartsAtMostOnce(seedIDs: seq<string>, events: seq<Event>, id: string)
    requires Run(Initial(seedIDs), events).Some?
    ensures var w := Run(Initial(seedIDs), events).value;
            && Starts(w.traders, id) <= (if Seeded(seedIDs, id) then 0 else 1)
            && (id in w.started <==> Seeded(seedIDs, id) || Starts(w.traders, id) == 1 || SomeoneStarting(w, id))
            && (forall h, h' :: BeingStarted(w, h, id) && BeingStarted(w, h', id) ==> h == h')
            && (id in w.traders ==> Trimmed(id))
  {
    RunKeepsInv(seedIDs, events);
    SeedsMeaning(seedIDs, id);
    DistinctStarts(Run(Initial(seedIDs), events).value.traders, id);
  }

  /** Giving a market back after a failed start lets the next handler claim it. */
  lemma FailedStartIsRetryable(seedIDs: seq<string>, events: seq<Event>, h: nat, next: nat, conditionID: string)
    requires Run(Initial(seedIDs), events).Some?
    requires var w := Run(Initial(seedIDs), events).value;
             && h in w.handlers && w.handlers[h].StartFailed? && TrimSpace(conditionID) == w.handlers[h].id != ""
             && next in w.handlers && w.handlers[next] == Fetched(conditionID)
    ensures var w := Run(Initial(seedIDs), events).value;
            var given := Step(w, Unmark(h));
            && !Marked(w.started, conditionID)
            && given.Some? && w.handlers[h].id !in given.value.started
            && var claimed := Step(given.value, Mark(next));
               claimed.Some? && claimed.value.handlers[next] == Starting(w.handlers[h].id)
  {
    RunKeepsInv(seedIDs, events);
    var w := Run(Initial(seedIDs), events).value;
    assert BeingStarted(w, h, w.handlers[h].id);
    assert SomeoneStarting(w, w.handlers[h].id);
  }
}
