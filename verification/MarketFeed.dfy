/**
 The market feed: one connection, a map of listeners, and a reconnecting loop, as atomic
 steps that may interleave in any order. Every send has an outcome chosen by the network.
 */
module MarketFeed {
  import opened Wrappers

  /** A listener: its name and the identity of its channel. */
  datatype Meta = Meta(name: string, ch: int)

  type Subscribers = map<string, seq<Meta>>

  /** Where the connect loop stands, with its local variables. */
  datatype Loop =
    | Idle
    | Dialed(c: nat)
    | Published(c: nat)
    | Snapped(c: nat, ids: set<string>)
    | Reading(c: nat)
    | Closing(c: nat)
    | Exited

  /** The latest connection as the server sees it, and the tokens whose last send on it failed. */
  datatype Wire = Wire(subscribed: set<string>, failed: set<string>)

  datatype Feed = Feed(
    subscribers: Subscribers,
    conn: Option<nat>,
    stopped: bool,
    cancelled: bool,
    loop: Loop,
    dials: nat,
    wire: Wire)

  const START := Feed(map[], None, false, false, Idle, 0, Wire({}, {}))

  datatype Event =
    | Dial(ok: bool)
    | Publish
    | Snapshot
    | BulkSend(ok: bool)
    | ReadEnds
    | Clear
    | Cancel
    | Exit
    | Stop
    | Subscribe(token: string, meta: Meta, ok: bool)
    | Unsubscribe(token: string, ch: int, ok: bool)

  function ListenersOf(subs: Subscribers, token: string): seq<Meta> {
    if token in subs then subs[token] else []
  }

  /** Without the first listener on this channel. */
  function RemoveFirst(metas: seq<Meta>, ch: int): seq<Meta> {
    if metas == [] then []
    else if metas[0].ch == ch then metas[1..]
    else [metas[0]] + RemoveFirst(metas[1..], ch)
  }

  /** A subscribe message for `ids`, lost when there is no connection. */
  function SendSubscribe(conn: Option<nat>, wire: Wire, ids: set<string>, ok: bool): Wire {
    if conn == None then wire
    else if ok then Wire(wire.subscribed + ids, wire.failed - ids)
    else Wire(wire.subscribed, wire.failed + ids)
  }

  function SendUnsubscribe(conn: Option<nat>, wire: Wire, ids: set<string>, ok: bool): Wire {
    if conn == None || !ok then wire else Wire(wire.subscribed - ids, wire.failed - ids)
  }

  function AfterSubscribe(s: Feed, token: string, meta: Meta, ok: bool): Feed {
    s.(subscribers := s.subscribers[token := ListenersOf(s.subscribers, token) + [meta]],
       wire := if token in s.subscribers then s.wire else SendSubscribe(s.conn, s.wire, {token}, ok))
  }

  function AfterUnsubscribe(s: Feed, token: string, ch: int, ok: bool): Feed {
    var left := RemoveFirst(ListenersOf(s.subscribers, token), ch);
    if left == [] then
      s.(subscribers := s.subscribers - {token}, wire := SendUnsubscribe(s.conn, s.wire, {token}, ok))
    else
      s.(subscribers := s.subscribers[token := left])
  }

  /** One step, or None when the loop is not at that point. */
  function Step(s: Feed, e: Event): Option<Feed> {
    match e
    case Dial(ok) =>
      if !s.loop.Idle? then None
      else if !ok then Some(s)
      else Some(s.(loop := Dialed(s.dials), dials := s.dials + 1, wire := Wire({}, {})))
    case Publish =>
      if !s.loop.Dialed? then None
      else Some(s.(conn := Some(s.loop.c), loop := Published(s.loop.c)))
    case Snapshot =>
      if !s.loop.Published? then None else Some(s.(loop := Snapped(s.loop.c, s.subscribers.Keys)))
    case BulkSend(ok) =>
      if !s.loop.Snapped? then None
      else Some(s.(loop := Reading(s.loop.c),
                   wire := if s.loop.ids == {} then s.wire else SendSubscribe(s.conn, s.wire, s.loop.ids, ok)))
    case ReadEnds =>
      if !s.loop.Reading? then None else Some(s.(loop := Closing(s.loop.c)))
    case Clear =>
      if !s.loop.Closing? then None
      else Some(s.(conn := if s.conn == Some(s.loop.c) then None else s.conn, loop := Idle))
    case Cancel => Some(s.(cancelled := true))
    case Exit => if s.cancelled && (s.loop.Idle? || s.loop.Dialed?) then Some(s.(loop := Exited)) else None
    case Stop => Some(if s.stopped then s else s.(stopped := true, conn := None))
    case Subscribe(token, meta, ok) => Some(AfterSubscribe(s, token, meta, ok))
    case Unsubscribe(token, ch, ok) => Some(AfterUnsubscribe(s, token, ch, ok))
  }

  function Run(s: Feed, events: seq<Event>): Option<Feed> {
    if events == [] then Some(s)
    else
      match Run(s, events[..|events| - 1])
      case None => None
      case Some(s') => Step(s', events[|events| - 1])
  }

  // The methods that take the steps.

  /** Position i holds the first listener on the channel. */
  predicate FirstOn(metas: seq<Meta>, ch: int, i: nat) {
    i < |metas| && metas[i].ch == ch && forall k :: 0 <= k < i ==> metas[k].ch != ch
  }

  method RemoveListener(metas: seq<Meta>, ch: int) returns (found: bool, left: seq<Meta>)
    ensures left == RemoveFirst(metas, ch)
    ensures found <==> exists i :: 0 <= i < |metas| && metas[i].ch == ch
    ensures found ==> exists i: nat :: FirstOn(metas, ch, i) && left == metas[..i] + metas[i + 1..]
    ensures !found ==> left == metas
  {
    for i := 0 to |metas|
      invariant metas[..i] + RemoveFirst(metas[i..], ch) == RemoveFirst(metas, ch)
      invariant forall k :: 0 <= k < i ==> metas[k].ch != ch
    {
      if metas[i].ch == ch {
        assert metas[i..][1..] == metas[i + 1..];
        assert FirstOn(metas, ch, i);
        return true, metas[..i] + metas[i + 1..];
      }
      assert metas[i..][1..] == metas[i + 1..];
      assert metas[..i] + [metas[i]] == metas[..i + 1];
    }
    assert metas[..|metas|] == metas;
    return false, metas;
  }

  class Feeder {
    var subscribers: Subscribers
    var conn: Option<nat>
    var stopped: bool
    ghost var cancelled: bool
    ghost var loop: Loop
    ghost var dials: nat
    ghost var wire: Wire

    ghost function View(): Feed
      reads this
    {
      Feed(subscribers, conn, stopped, cancelled, loop, dials, wire)
    }

    constructor ()
      ensures View() == START
    {
      subscribers, conn, stopped := map[], None, false;
      cancelled, loop, dials, wire := false, Idle, 0, Wire({}, {});
    }

    /** Subscribes a listener; only the first listener of a token causes a send. */
    method Subscribe(token: string, meta: Meta, ok: bool)
      modifies this
      ensures Some(View()) == Step(old(View()), Event.Subscribe(token, meta, ok))
      ensures subscribers == old(subscribers)[token := (if token in old(subscribers) then old(subscribers)[token] else []) + [meta]]
      ensures token in old(subscribers) || old(conn).None? ==> wire == old(wire)
    {
      var known := token in subscribers;
      var metas := if known then subscribers[token] else [];
      subscribers := subscribers[token := metas + [meta]];
      if !known && conn.Some? {
        wire := SendSubscribe(conn, wire, {token}, ok);
      }
    }

    /** Removes the first listener on the channel; a token without listeners is unsubscribed. */
    method Unsubscribe(token: string, ch: int, ok: bool) returns (err: bool)
      modifies this
      ensures Some(View()) == Step(old(View()), Event.Unsubscribe(token, ch, ok))
      ensures err <==> !ok && old(conn).Some? && token !in subscribers
      ensures subscribers - {token} == old(subscribers) - {token} && (token in subscribers ==> subscribers[token] != [])
      ensures ListenersOf(subscribers, token) == RemoveFirst(ListenersOf(old(subscribers), token), ch)
    {
      var metas := if token in subscribers then subscribers[token] else [];
      var found;
      found, metas := RemoveListener(metas, ch);
      if found {
        subscribers := subscribers[token := metas];
      }
      assert metas != [] ==> subscribers == old(subscribers)[token := metas];
      if |metas| == 0 {
        subscribers := subscribers - {token};
        assert subscribers == old(subscribers) - {token};
        if conn.Some? {
          wire := SendUnsubscribe(conn, wire, {token}, ok);
          return !ok;
        }
      }
      return false;
    }

    method Stop()
      modifies this
      ensures Some(View()) == Step(old(View()), Event.Stop)
      ensures stopped && (if old(stopped) then conn == old(conn) else conn == None)
    {
      if !stopped {
        stopped := true;
        if conn.Some? {
          conn := None;
        }
      }
    }

    /** The loop makes a dialled connection the feed's connection. */
    method PublishConn(c: nat)
      requires loop == Dialed(c)
      modifies this
      ensures Some(View()) == Step(old(View()), Publish)
    {
      conn := Some(c);
      loop := Published(c);
    }

    /** The loop copies the tokens to resubscribe. */
    method SnapshotTokens() returns (ids: set<string>)
      requires loop.Published?
      modifies this
      ensures Some(View()) == Step(old(View()), Snapshot)
      ensures ids == subscribers.Keys && loop == Snapped(old(loop.c), ids)
    {
      ids := subscribers.Keys;
      loop := Snapped(loop.c, ids);
    }

    /** The loop resubscribes everything in its copy, on whatever connection the feed now has. */
    method SendBulk(ids: set<string>, ok: bool)
      requires loop.Snapped? && loop.ids == ids
      modifies this
      ensures Some(View()) == Step(old(View()), BulkSend(ok))
    {
      if |ids| > 0 && conn.Some? {
        wire := SendSubscribe(conn, wire, ids, ok);
      }
      loop := Reading(loop.c);
    }

    /** The loop drops its connection unless the feed has dropped it already. */
    method ClearConn(c: nat)
      requires loop == Closing(c)
      modifies this
      ensures Some(View()) == Step(old(View()), Clear)
    {
      if conn == Some(c) {
        conn := None;
      }
      loop := Idle;
    }
  }

  // What holds over all interleavings.

  /** No token without listeners, the connection is the loop's, and nothing has slipped through. */
  ghost predicate Covered(s: Feed) {
    && (forall t :: t in s.subscribers ==> s.subscribers[t] != [])
    && (s.conn.Some? ==>
          match s.loop
          case Published(c) => s.conn == Some(c)
          case Snapped(c, ids) => s.conn == Some(c) && s.subscribers.Keys <= ids + s.wire.subscribed + s.wire.failed
          case Reading(c) => s.conn == Some(c) && s.subscribers.Keys <= s.wire.subscribed + s.wire.failed
          case Closing(c) => s.conn == Some(c) && s.subscribers.Keys <= s.wire.subscribed + s.wire.failed
          case _ => false)
  }

  lemma SubscribeKeepsCovered(s: Feed, token: string, meta: Meta, ok: bool)
    requires Covered(s)
    ensures Covered(AfterSubscribe(s, token, meta, ok))
  {
    var s' := AfterSubscribe(s, token, meta, ok);
    assert s'.subscribers.Keys == s.subscribers.Keys + {token};
  }

  lemma UnsubscribeKeepsCovered(s: Feed, token: string, ch: int, ok: bool)
    requires Covered(s)
    ensures Covered(AfterUnsubscribe(s, token, ch, ok))
  {
    var s' := AfterUnsubscribe(s, token, ch, ok);
    if RemoveFirst(ListenersOf(s.subscribers, token), ch) == [] {
      assert s'.subscribers.Keys == s.subscribers.Keys - {token};
    } else {
      assert token in s.subscribers;
      assert s'.subscribers.Keys == s.subscribers.Keys;
    }
  }

  lemma StepKeepsCovered(s: Feed, e: Event)
    requires Covered(s) && Step(s, e).Some?
    ensures Covered(Step(s, e).value)
  {
    match e
    case Subscribe(token, meta, ok) => SubscribeKeepsCovered(s, token, meta, ok);
    case Unsubscribe(token, ch, ok) => UnsubscribeKeepsCovered(s, token, ch, ok);
    case _ =>
  }

  lemma {:induction false} RunKeepsCovered(events: seq<Event>)
    requires Run(START, events).Some?
    ensures Covered(Run(START, events).value)
  {
    if events != [] {
      RunKeepsCovered(events[..|events| - 1]);
      StepKeepsCovered(Run(START, events[..|events| - 1]).value, events[|events| - 1]);
    }
  }

  /** The tokens with a failed subscribe message on the latest connection. */
  function FailedOnConnection(events: seq<Event>): set<string>
    requires Run(START, events).Some?
  {
    if events == [] then {}
    else
      var before := events[..|events| - 1];
      var s := Run(START, before).value;
      match events[|events| - 1]
      case Dial(true) => {}
      case BulkSend(false) => FailedOnConnection(before) + if s.conn.Some? then s.loop.ids else {}
      case Subscribe(t, _, false) => FailedOnConnection(before) + if s.conn.Some? && t !in s.subscribers then {t} else {}
      case _ => FailedOnConnection(before)
  }

  lemma {:induction false} FailuresHaveCause(events: seq<Event>)
    requires Run(START, events).Some?
    ensures Run(START, events).value.wire.failed <= FailedOnConnection(events)
  {
    if events != [] {
      FailuresHaveCause(events[..|events| - 1]);
    }
  }

  /** After the bulk send, every token with a listener is subscribed unless a send of it failed on this connection. */
  lemma SubscriptionCoverage(events: seq<Event>, token: string)
    requires Run(START, events).Some?
    ensures var s := Run(START, events).value;
            && (token in s.subscribers ==> s.subscribers[token] != [])
            && (s.conn.Some? && s.loop.Reading? && token in s.subscribers && token !in FailedOnConnection(events) ==>
                  s.loop.c == s.conn.value && token in s.wire.subscribed)
  {
    RunKeepsCovered(events);
    FailuresHaveCause(events);
  }

  predicate SendOk(e: Event) {
    match e
    case BulkSend(ok) => ok
    case Subscribe(_, _, ok) => ok
    case _ => true
  }

  /** Tokens fail only through failed sends on the connection: none since the dial, none failed. */
  lemma {:induction false} NoFailureNoGap(s: Feed, events: seq<Event>)
    requires Run(s, events).Some? && s.wire.failed == {}
    requires forall i :: 0 <= i < |events| ==> SendOk(events[i])
    ensures Run(s, events).value.wire.failed == {}
  {
    if events != [] {
      NoFailureNoGap(s, events[..|events| - 1]);
    }
  }

  lemma {:induction false} RunJoin(s: Feed, a: seq<Event>, b: seq<Event>)
    ensures Run(s, a + b) == if Run(s, a).None? then None else Run(Run(s, a).value, b)
    decreases |b|
  {
    if b == [] {
      assert a + b == a;
    } else {
      assert (a + b)[..|a + b| - 1] == a + b[..|b| - 1];
      RunJoin(s, a, b[..|b| - 1]);
    }
  }

  /**
   Failures heal: whatever happened before, once a new connection is dialled and its sends
   succeed, every token with a listener is subscribed on it.
   */
  lemma {:induction false} FailuresHeal(before: seq<Event>, after: seq<Event>)
    requires Run(START, before).Some? && Run(START, before).value.loop.Idle?
    requires Run(START, before + [Dial(true)] + after).Some?
    requires forall i :: 0 <= i < |after| ==> SendOk(after[i])
    ensures var s := Run(START, before + [Dial(true)] + after).value;
            s.conn.Some? && s.loop.Reading? ==> s.subscribers.Keys <= s.wire.subscribed
  {
    var events := before + [Dial(true)];
    RunJoin(START, before, [Dial(true)]);
    assert [Dial(true)][..0] == [];
    assert Run(Run(START, before).value, [Dial(true)]) == Step(Run(START, before).value, Dial(true));
    RunJoin(START, events, after);
    NoFailureNoGap(Run(START, events).value, after);
    RunKeepsCovered(events + after);
  }

  /** The event is a subscribe message for the token on a live connection, whatever becomes of it. */
  predicate Asks(s: Feed, e: Event, token: string) {
    && s.conn.Some?
    && match e
       case BulkSend(_) => s.loop.Snapped? && token in s.loop.ids
       case Subscribe(t, _, _) => t == token && t !in s.subscribers
       case _ => false
  }

  /** Event k of the run asks for the token. */
  predicate AsksAt(s: Feed, events: seq<Event>, k: nat, token: string) {
    k < |events| && Run(s, events[..k]).Some? && Asks(Run(s, events[..k]).value, events[k], token)
  }

  lemma {:induction false} TouchedWasAsked(s: Feed, events: seq<Event>, token: string)
    requires Run(s, events).Some? && s.wire == Wire({}, {})
    ensures var wire := Run(s, events).value.wire;
            token in wire.subscribed + wire.failed ==> exists k: nat :: AsksAt(s, events, k, token)
  {
    if events != [] {
      var n := |events| - 1;
      var at := Run(s, events[..n]).value;
      TouchedWasAsked(s, events[..n], token);
      if k: nat :| AsksAt(s, events[..n], k, token) {
        assert events[..n][..k] == events[..k];
        assert AsksAt(s, events, k, token);
      } else if Asks(at, events[n], token) {
        assert AsksAt(s, events, n, token);
      }
    }
  }

  /**
   Failures are retried: on every later connection a token with a listener, failed before or not,
   is in the snapshot about to be sent or has been asked for on that connection.
   */
  lemma {:induction false} FailedIsRetried(before: seq<Event>, after: seq<Event>, token: string)
    requires Run(START, before + [Dial(true)]).Some? && Run(START, before + [Dial(true)] + after).Some?
    ensures var s := Run(START, before + [Dial(true)] + after).value;
            s.conn.Some? && token in s.subscribers && (s.loop.Snapped? || s.loop.Reading? || s.loop.Closing?) ==>
              || (s.loop.Snapped? && token in s.loop.ids)
              || exists k: nat :: AsksAt(Run(START, before + [Dial(true)]).value, after, k, token)
  {
    var events := before + [Dial(true)];
    assert events[..|events| - 1] == before;
    RunJoin(START, events, after);
    TouchedWasAsked(Run(START, events).value, after, token);
    RunKeepsCovered(events + after);
  }

  // Subscriptions that nobody listens to.

  /** The last listener of the token is gone, or there was none. */
  predicate Empties(s: Feed, token: string, ch: int) {
    RemoveFirst(ListenersOf(s.subscribers, token), ch) == []
  }

  /**
   The step leaves a token subscribed without a listener: sent from a snapshot gone stale, or not
   unsubscribed because the message was lost or failed. A new connection starts clean.
   */
  function LeftAfter(s: Feed, e: Event, left: set<string>): set<string> {
    match e
    case Dial(true) => {}
    case BulkSend(true) => left + if s.conn.Some? && s.loop.Snapped? then s.loop.ids - s.subscribers.Keys else {}
    case Subscribe(t, _, _) => left - {t}
    case Unsubscribe(t, ch, ok) =>
      if !Empties(s, t, ch) then left
      else if s.conn.Some? && ok then left - {t}
      else left + if t in s.wire.subscribed then {t} else {}
    case _ => left
  }

  /** The tokens left subscribed on the latest connection without a listener. */
  function LeftBehind(events: seq<Event>): set<string>
    requires Run(START, events).Some?
  {
    if events == [] then {}
    else LeftAfter(Run(START, events[..|events| - 1]).value, events[|events| - 1], LeftBehind(events[..|events| - 1]))
  }

  function Extras(s: Feed): set<string> {
    s.wire.subscribed - s.subscribers.Keys
  }

  lemma StepLeaves(s: Feed, e: Event)
    requires Covered(s) && Step(s, e).Some?
    ensures Extras(Step(s, e).value) == LeftAfter(s, e, Extras(s))
  {
    hide RemoveFirst;
    match e
    case Unsubscribe(t, ch, ok) => UnsubscribeLeaves(s, t, ch, ok);
    case _ =>
  }

  lemma UnsubscribeLeaves(s: Feed, t: string, ch: int, ok: bool)
    requires Covered(s)
    ensures Extras(AfterUnsubscribe(s, t, ch, ok)) == LeftAfter(s, Event.Unsubscribe(t, ch, ok), Extras(s))
  {
    var s' := AfterUnsubscribe(s, t, ch, ok);
    if Empties(s, t, ch) {
      assert s'.subscribers.Keys == s.subscribers.Keys - {t};
    } else {
      assert t in s.subscribers;
      assert s'.subscribers.Keys == s.subscribers.Keys;
    }
  }

  /** The subscriptions nobody listens to are exactly those left behind. */
  lemma {:induction false} ExtrasAreLeftBehind(events: seq<Event>)
    requires Run(START, events).Some?
    ensures var s := Run(START, events).value;
            && Extras(s) == LeftBehind(events)
            && (s.wire.subscribed <= s.subscribers.Keys <==> LeftBehind(events) == {})
  {
    if events != [] {
      hide Step, LeftAfter, Covered;
      var before := events[..|events| - 1];
      ExtrasAreLeftBehind(before);
      RunKeepsCovered(before);
      StepLeaves(Run(START, before).value, events[|events| - 1]);
    }
    NoExtras(Run(START, events).value);
  }

  lemma NoExtras(s: Feed)
    ensures s.wire.subscribed <= s.subscribers.Keys <==> Extras(s) == {}
  {
    if !(s.wire.subscribed <= s.subscribers.Keys) {
      var t :| t in s.wire.subscribed && t !in s.subscribers.Keys;
      assert t in Extras(s);
    }
  }

  /** The last listener of a token leaves cleanly: not between snapshot and bulk send, and the message gets through. */
  predicate LeavesCleanly(s: Feed, e: Event) {
    e.Unsubscribe? && Empties(s, e.token, e.ch) && s.conn.Some? ==>
      e.ok && (s.loop.Snapped? ==> e.token !in s.loop.ids)
  }

  ghost predicate AllLeaveCleanly(events: seq<Event>) {
    forall k: nat :: k < |events| && Run(START, events[..k]).Some? ==> LeavesCleanly(Run(START, events[..k]).value, events[k])
  }

  /** Nothing subscribed or about to be without a listener. */
  predicate NoExtra(s: Feed) {
    && (s.conn.Some? ==> s.wire.subscribed <= s.subscribers.Keys && (s.loop.Snapped? ==> s.loop.ids <= s.subscribers.Keys))
    && (s.loop.Dialed? ==> s.wire.subscribed == {})
  }

  lemma StepKeepsNoExtra(s: Feed, e: Event)
    requires Covered(s) && NoExtra(s) && LeavesCleanly(s, e) && Step(s, e).Some?
    ensures NoExtra(Step(s, e).value)
  {
  }

  /** While every last listener leaves cleanly, a live connection has no subscription that nobody listens to. */
  lemma {:induction false} CleanRunsLeaveNothing(events: seq<Event>)
    requires Run(START, events).Some? && AllLeaveCleanly(events)
    ensures NoExtra(Run(START, events).value)
  {
    if events != [] {
      var before := events[..|events| - 1];
      forall k: nat | k < |before| && Run(START, before[..k]).Some?
        ensures LeavesCleanly(Run(START, before[..k]).value, before[k])
      {
        assert before[..k] == events[..k];
      }
      CleanRunsLeaveNothing(before);
      RunKeepsCovered(before);
      StepKeepsNoExtra(Run(START, before).value, events[|events| - 1]);
    }
  }

  /** With no failed send and clean leaves, a reading connection has exactly the tokens with listeners. */
  lemma InSync(events: seq<Event>)
    requires Run(START, events).Some?
    ensures var s := Run(START, events).value;
            s.conn.Some? && s.loop.Reading? && FailedOnConnection(events) == {} && AllLeaveCleanly(events) ==>
              s.wire.subscribed == s.subscribers.Keys
  {
    if AllLeaveCleanly(events) {
      CleanRunsLeaveNothing(events);
    }
    forall token: string
      ensures var s := Run(START, events).value;
              s.conn.Some? && s.loop.Reading? && token in s.subscribers && token !in FailedOnConnection(events) ==> token in s.wire.subscribed
    {
      SubscriptionCoverage(events, token);
    }
  }

  /** One failed message is enough: the last listener goes, the subscription stays. */
  lemma FailedUnsubscribeLeavesExtra(events: seq<Event>, t: string, meta: Meta)
    requires Run(START, events).Some? && t in Run(START, events).value.wire.subscribed
    requires ListenersOf(Run(START, events).value.subscribers, t) == [meta]
    ensures var e := Event.Unsubscribe(t, meta.ch, false);
            Run(START, events + [e]).Some? && t in LeftBehind(events + [e])
  {
    var e := Event.Unsubscribe(t, meta.ch, false);
    assert (events + [e])[..|events + [e]| - 1] == events;
  }

  /** A listener leaves between the snapshot and the bulk send. */
  function StaleRun(t: string, meta: Meta): seq<Event> {
    [Event.Subscribe(t, meta, true), Dial(true), Publish, Snapshot, Event.Unsubscribe(t, meta.ch, true), BulkSend(true)]
  }

  lemma StaleRunToSnapshot(t: string, meta: Meta)
    ensures Run(START, StaleRun(t, meta)[..4]) ==
            Some(Feed(map[t := [meta]], Some(0), false, false, Snapped(0, {t}), 1, Wire({}, {})))
  {
    var events := StaleRun(t, meta);
    var s1 := START.(subscribers := map[t := [meta]]);
    var s2 := s1.(loop := Dialed(0), dials := 1);
    var s3 := s2.(conn := Some(0), loop := Published(0));
    var s4 := s3.(loop := Snapped(0, {t}));
    assert AfterSubscribe(START, t, meta, true) == s1 by { assert [] + [meta] == [meta]; }
    assert s3.subscribers.Keys == {t};
    BeforeAll(START, events);
    hide Run;
    RunTo(START, events, 0, START, s1);
    RunTo(START, events, 1, s1, s2);
    RunTo(START, events, 2, s2, s3);
    RunTo(START, events, 3, s3, s4);
  }

  /** Inclusion is all there is: a snapshot gone stale leaves a subscription nobody listens to. */
  lemma StaleSnapshotLeavesExtra(t: string, meta: Meta)
    ensures Run(START, StaleRun(t, meta)) ==
            Some(Feed(map[], Some(0), false, false, Reading(0), 1, Wire({t}, {})))
  {
    var events := StaleRun(t, meta);
    StaleRunToSnapshot(t, meta);
    hide Run;
    var s4 := Feed(map[t := [meta]], Some(0), false, false, Snapped(0, {t}), 1, Wire({}, {}));
    var s5 := s4.(subscribers := map[]);
    var s6 := s5.(loop := Reading(0), wire := Wire({t}, {}));
    var nothing: set<string> := {};
    assert nothing + {t} == {t} && nothing - {t} == nothing;
    LastListenerLeaves(s4, t, meta);
    RunTo(START, events, 4, s4, s5);
    RunTo(START, events, 5, s5, s6);
    assert events[..6] == events;
  }

  lemma LastListenerLeaves(s: Feed, t: string, meta: Meta)
    requires s.subscribers == map[t := [meta]] && s.wire == Wire({}, {})
    ensures AfterUnsubscribe(s, t, meta.ch, true) == s.(subscribers := map[])
  {
    assert RemoveFirst([meta], meta.ch) == [];
    assert s.subscribers - {t} == map[];
  }

  lemma BeforeAll(s: Feed, events: seq<Event>)
    ensures Run(s, events[..0]) == Some(s)
  {
  }

  /** Lifts a step to the run it ends. */
  lemma RunTo(s: Feed, events: seq<Event>, k: nat, at: Feed, next: Feed)
    requires k < |events| && Run(s, events[..k]) == Some(at) && Step(at, events[k]) == Some(next)
    ensures Run(s, events[..k + 1]) == Some(next)
  {
    assert events[..k + 1][..k] == events[..k];
  }

  // Stopping and exiting.

  /** Without a connection nothing reaches the server until one is published. */
  lemma {:induction false} SilentWhileDown(s: Feed, events: seq<Event>)
    requires s.conn == None && Run(s, events).Some?
    requires forall i :: 0 <= i < |events| ==> events[i] != Publish
    ensures var s' := Run(s, events).value;
            && s'.conn == None && (s.stopped ==> s'.stopped)
            && (s'.wire == s.wire || s'.wire == Wire({}, {}))
  {
    if events != [] {
      SilentWhileDown(s, events[..|events| - 1]);
    }
  }

  /** The first stop drops the connection, and no message is sent until the loop publishes another one. */
  lemma StopSilences(before: seq<Event>, after: seq<Event>)
    requires Run(START, before).Some? && !Run(START, before).value.stopped
    requires Run(START, before + [Event.Stop] + after).Some?
    requires forall i :: 0 <= i < |after| ==> after[i] != Publish
    ensures var s, s' := Run(START, before).value, Run(START, before + [Event.Stop] + after).value;
            s'.stopped && s'.conn == None && (s'.wire == s.wire || s'.wire == Wire({}, {}))
  {
    hide *;
    var s := Run(START, before).value;
    FirstStop(s);
    RunSnoc(START, before, Event.Stop);
    RunJoin(START, before + [Event.Stop], after);
    SilentWhileDown(s.(stopped := true, conn := None), after);
  }

  lemma FirstStop(s: Feed)
    requires !s.stopped
    ensures Step(s, Event.Stop) == Some(s.(stopped := true, conn := None))
  {
  }

  lemma RunSnoc(s: Feed, events: seq<Event>, e: Event)
    requires Run(s, events).Some?
    ensures Run(s, events + [e]) == Step(Run(s, events).value, e)
  {
    hide Step;
    assert (events + [e])[..|events + [e]| - 1] == events;
  }

  /** The loop exits only when cancelled, and for good: it never dials nor publishes again. */
  lemma {:induction false} ExitIsFinal(s: Feed, events: seq<Event>)
    requires (s.loop.Exited? ==> s.cancelled) && Run(s, events).Some?
    ensures var s' := Run(s, events).value;
            && (s'.loop.Exited? ==> s'.cancelled)
            && (s.loop.Exited? ==> s'.loop.Exited? && s'.dials == s.dials && s'.conn in {s.conn, None})
  {
    if events != [] {
      ExitIsFinal(s, events[..|events| - 1]);
    }
  }

  /** A cancelled loop gets to its exit, wherever it stands. */
  lemma CancelReachesExit(s: Feed)
    requires s.cancelled && !s.loop.Exited?
    ensures exists events :: Run(s, events).Some? && Run(s, events).value.loop.Exited?
    decreases match s.loop
              case Published(_) => 4
              case Snapped(_, _) => 3
              case Reading(_) => 2
              case Closing(_) => 1
              case _ => 0
  {
    var e := match s.loop
             case Published(_) => Snapshot
             case Snapped(_, _) => BulkSend(true)
             case Reading(_) => ReadEnds
             case Closing(_) => Clear
             case _ => Exit;
    var next := Step(s, e).value;
    var rest := [];
    if !next.loop.Exited? {
      CancelReachesExit(next);
      rest :| Run(next, rest).Some? && Run(next, rest).value.loop.Exited?;
    }
    RunFirst(s, e, next, rest);
  }

  lemma RunFirst(s: Feed, e: Event, next: Feed, rest: seq<Event>)
    requires Step(s, e) == Some(next)
    ensures Run(s, [e] + rest) == Run(next, rest)
  {
    hide Step;
    RunJoin(s, [e], rest);
    assert [e][..0] == [] && Run(s, [e]) == Step(s, e);
  }

  // Listeners are neither lost nor duplicated.

  function Count(metas: seq<Meta>, ch: int): nat {
    if metas == [] then 0 else Count(metas[..|metas| - 1], ch) + if metas[|metas| - 1].ch == ch then 1 else 0
  }

  lemma {:induction false} CountJoin(a: seq<Meta>, b: seq<Meta>, ch: int)
    ensures Count(a + b, ch) == Count(a, ch) + Count(b, ch)
    decreases |b|
  {
    if b == [] {
      assert a + b == a;
    } else {
      assert (a + b)[..|a + b| - 1] == a + b[..|b| - 1];
      CountJoin(a, b[..|b| - 1], ch);
    }
  }

  lemma {:induction false} RemoveFirstCounts(metas: seq<Meta>, ch: int, other: int)
    ensures Count(RemoveFirst(metas, ch), other) ==
            Count(metas, other) - if ch == other && Count(metas, ch) > 0 then 1 else 0
  {
    if metas != [] {
      assert metas == [metas[0]] + metas[1..];
      CountJoin([metas[0]], metas[1..], other);
      CountJoin([metas[0]], metas[1..], ch);
      RemoveFirstCounts(metas[1..], ch, other);
      if metas[0].ch != ch {
        CountJoin([metas[0]], RemoveFirst(metas[1..], ch), other);
      }
    }
  }

  /** Steps touch one listener of one token: a subscribe adds it, an unsubscribe takes one away. */
  lemma ListenersAreConserved(s: Feed, e: Event, token: string, ch: int)
    requires Covered(s) && Step(s, e).Some?
    ensures var before, after := Count(ListenersOf(s.subscribers, token), ch), Count(ListenersOf(Step(s, e).value.subscribers, token), ch);
            after == match e
                     case Subscribe(t, meta, _) => before + if t == token && meta.ch == ch then 1 else 0
                     case Unsubscribe(t, c, _) => before - if t == token && c == ch && before > 0 then 1 else 0
                     case _ => before
  {
    hide Covered, Count, RemoveFirst;
    match e
    case Subscribe(t, meta, ok) =>
      CountJoin(ListenersOf(s.subscribers, t), [meta], ch);
      CountOne(meta, ch);
    case Unsubscribe(t, c, ok) =>
      RemoveFirstCounts(ListenersOf(s.subscribers, t), c, ch);
      ListenersAfterUnsubscribe(s, t, c, ok, token);
    case _ =>
  }

  lemma CountOne(meta: Meta, ch: int)
    ensures Count([meta], ch) == if meta.ch == ch then 1 else 0
  {
    assert [meta][..0] == [];
  }

  lemma ListenersAfterUnsubscribe(s: Feed, t: string, ch: int, ok: bool, token: string)
    ensures ListenersOf(AfterUnsubscribe(s, t, ch, ok).subscribers, token) ==
            if t == token then RemoveFirst(ListenersOf(s.subscribers, t), ch) else ListenersOf(s.subscribers, token)
  {
    hide RemoveFirst, SendUnsubscribe;
  }
}
