/**
 The realtime session state machine (multimodal.rs): events carry an identifier and a sequence number,
 redeliveries are absorbed by a bounded fingerprint table, gaps and reuse are refused.
 */
module Realtime {
  import opened Wrappers

  const MAX_DEDUPE_EVENTS := 65536
  const MAX_SEQUENCE := 0xFFFF_FFFF_FFFF_FFFF

  datatype SessionState = Connecting | Active | Interrupted | Closed | Failed

  /** `Other` stands for the kinds that leave the session state alone. */
  datatype EventKind = Connected | ResponseInterrupted | CloseEvent(reason: string) | ErrorEvent(message: string) | Other(payload: string)

  datatype Event = Event(id: string, sequence: nat, kind: EventKind)

  /** A fingerprint identifies the whole event it was taken of. */
  datatype Fingerprint = Fingerprint(of: Event)

  datatype Session = Session(state: SessionState, lastSequence: nat, seen: map<string, Fingerprint>)

  datatype ApplyError = IdReused | WindowFull | AfterTerminal | SequenceMismatch(expected: nat, got: nat)

  const NEW_SESSION := Session(Connecting, 0, map[])

  function NextState(state: SessionState, kind: EventKind): SessionState {
    match kind
    case Connected => Active
    case ResponseInterrupted => Interrupted
    case CloseEvent(_) => Closed
    case ErrorEvent(_) => Failed
    case Other(_) => state
  }

  predicate TerminalState(state: SessionState) {
    state == Closed || state == Failed
  }

  function ExpectedSequence(s: Session): nat {
    if s.lastSequence >= MAX_SEQUENCE then MAX_SEQUENCE else s.lastSequence + 1
  }

  /** `Ok(true)` accepts a new event, `Ok(false)` absorbs a redelivery. */
  function Verdict(s: Session, e: Event): Result<bool, ApplyError> {
    if e.id in s.seen then if s.seen[e.id] == Fingerprint(e) then Ok(false) else Err(IdReused)
    else if |s.seen| >= MAX_DEDUPE_EVENTS then Err(WindowFull)
    else if TerminalState(s.state) then Err(AfterTerminal)
    else if e.sequence != ExpectedSequence(s) then Err(SequenceMismatch(ExpectedSequence(s), e.sequence))
    else Ok(true)
  }

  predicate Accepts(s: Session, e: Event) {
    Verdict(s, e) == Ok(true)
  }

  function Applied(s: Session, e: Event): Session {
    if Accepts(s, e) then Session(NextState(s.state, e.kind), e.sequence, s.seen[e.id := Fingerprint(e)]) else s
  }

  class RealtimeSession {
    var state: SessionState
    var lastSequence: nat
    var seen: map<string, Fingerprint>

    function Value(): Session
      reads this
    {
      Session(state, lastSequence, seen)
    }

    constructor ()
      ensures Value() == NEW_SESSION
    {
      state, lastSequence, seen := Connecting, 0, map[];
    }

    method Apply(e: Event) returns (r: Result<bool, ApplyError>)
      modifies this
      ensures r == Verdict(old(Value()), e) && Value() == Applied(old(Value()), e)
    {
      if e.id in seen {
        if seen[e.id] == Fingerprint(e) {
          return Ok(false);
        }
        return Err(IdReused);
      }
      if |seen| >= MAX_DEDUPE_EVENTS {
        return Err(WindowFull);
      }
      if state == Closed || state == Failed {
        return Err(AfterTerminal);
      }
      var expected := if lastSequence >= MAX_SEQUENCE then MAX_SEQUENCE else lastSequence + 1;
      if e.sequence != expected {
        return Err(SequenceMismatch(expected, e.sequence));
      }
      state := NextState(state, e.kind);
      lastSequence := e.sequence;
      seen := seen[e.id := Fingerprint(e)];
      return Ok(true);
    }
  }

  // ---------------------------------------------------------------- streams

  /** The session after a stream of deliveries, whatever each of them returned. */
  function Run(stream: seq<Event>): Session {
    if stream == [] then NEW_SESSION else Applied(Run(stream[..|stream| - 1]), stream[|stream| - 1])
  }

  /** The deliveries that were accepted, in order: the stream without redeliveries and refusals. */
  function Accepted(stream: seq<Event>): seq<Event> {
    if stream == [] then []
    else
      var earlier := stream[..|stream| - 1];
      var last := stream[|stream| - 1];
      if Accepts(Run(earlier), last) then Accepted(earlier) + [last] else Accepted(earlier)
  }

  /**
   A session fed any stream, redeliveries and refused events included, ends exactly where it would have
   ended on the accepted events alone, all of which are accepted again.
   */
  lemma {:induction false} RunEqualsRunOfAccepted(stream: seq<Event>)
    ensures Run(Accepted(stream)) == Run(stream)
    ensures Accepted(Accepted(stream)) == Accepted(stream)
  {
    if stream != [] {
      var earlier, last := stream[..|stream| - 1], stream[|stream| - 1];
      RunEqualsRunOfAccepted(earlier);
      if Accepts(Run(earlier), last) {
        var kept := Accepted(earlier) + [last];
        assert kept[..|kept| - 1] == Accepted(earlier);
      }
    }
  }

  function Ids(events: seq<Event>): set<string> {
    set i | 0 <= i < |events| :: events[i].id
  }

  predicate Numbered(accepted: seq<Event>) {
    && (forall i :: 0 <= i < |accepted| ==> accepted[i].sequence == i + 1)
    && (forall i, j :: 0 <= i < j < |accepted| ==> accepted[i].id != accepted[j].id)
  }

  predicate Recorded(seen: map<string, Fingerprint>, accepted: seq<Event>) {
    && seen.Keys == Ids(accepted)
    && (forall i :: 0 <= i < |accepted| ==> seen[accepted[i].id] == Fingerprint(accepted[i]))
  }

  /** The table holds exactly the accepted events, which are numbered 1..n under distinct ids. */
  predicate TableOk(s: Session, accepted: seq<Event>) {
    && s.lastSequence == |accepted| && |s.seen| == |accepted| && |accepted| <= MAX_DEDUPE_EVENTS
    && Numbered(accepted) && Recorded(s.seen, accepted)
  }

  lemma IdsGrow(kept: seq<Event>, last: Event)
    ensures Ids(kept + [last]) == Ids(kept) + {last.id}
  {
    var more := kept + [last];
    assert more[|kept|] == last;
    forall id | id in Ids(kept)
      ensures id in Ids(more)
    {
      var i :| 0 <= i < |kept| && kept[i].id == id;
      assert more[i].id == id;
    }
  }

  lemma NumberedGrows(kept: seq<Event>, last: Event)
    requires Numbered(kept) && last.id !in Ids(kept) && last.sequence == |kept| + 1
    ensures Numbered(kept + [last])
  {
  }

  lemma AcceptingOneMore(before: Session, kept: seq<Event>, last: Event)
    requires TableOk(before, kept) && Accepts(before, last)
    ensures TableOk(Applied(before, last), kept + [last])
  {
    hide Ids;
    var s, more := Applied(before, last), kept + [last];
    IdsGrow(kept, last);
    NumberedGrows(kept, last);
    assert s.seen.Keys == before.seen.Keys + {last.id};
    assert |s.seen| == |before.seen| + 1;
    forall i | 0 <= i < |more|
      ensures more[i].id in s.seen && s.seen[more[i].id] == Fingerprint(more[i])
    {
      if i < |kept| {
        assert more[i] == kept[i];
        assert kept[i].id in before.seen && kept[i].id != last.id by {
          KnownId(kept, i);
        }
      }
    }
  }

  lemma KnownId(kept: seq<Event>, i: nat)
    requires i < |kept|
    ensures kept[i].id in Ids(kept)
  {
  }

  lemma {:induction false} AcceptedEventsAreNumbered(stream: seq<Event>)
    ensures TableOk(Run(stream), Accepted(stream))
  {
    if stream != [] {
      var earlier, last := stream[..|stream| - 1], stream[|stream| - 1];
      AcceptedEventsAreNumbered(earlier);
      if Accepts(Run(earlier), last) {
        AcceptingOneMore(Run(earlier), Accepted(earlier), last);
      }
    }
  }

  lemma {:induction false} SuffixDecides(a: seq<Event>, b: seq<Event>, suffix: seq<Event>)
    requires Run(a) == Run(b)
    ensures Run(a + suffix) == Run(b + suffix)
    decreases |suffix|
  {
    if suffix == [] {
      assert a + suffix == a && b + suffix == b;
    } else {
      var init, last := suffix[..|suffix| - 1], suffix[|suffix| - 1];
      SuffixDecides(a, b, init);
      assert (a + suffix)[..|a + suffix| - 1] == a + init && (b + suffix)[..|b + suffix| - 1] == b + init;
      assert (a + suffix)[|a + suffix| - 1] == last && (b + suffix)[|b + suffix| - 1] == last;
    }
  }

  /** Redelivering an event that was accepted earlier, at any later point, changes nothing. */
  lemma RedeliveryIsInvisible(before: seq<Event>, e: Event, after: seq<Event>)
    requires e in Accepted(before)
    ensures Verdict(Run(before), e) == Ok(false)
    ensures Run(before + [e] + after) == Run(before + after)
  {
    AcceptedEventsAreNumbered(before);
    var i :| 0 <= i < |Accepted(before)| && Accepted(before)[i] == e;
    KnownId(Accepted(before), i);
    assert (before + [e])[..|before + [e]| - 1] == before;
    assert Run(before + [e]) == Run(before);
    SuffixDecides(before + [e], before, after);
  }

  // ---------------------------------------------------------------- streams with redeliveries

  /**
   `noisy` is `stream` with redeliveries inserted anywhere, any number of times: each inserted event was
   accepted at an earlier position of the stream.
   */
  predicate Redelivers(stream: seq<Event>, noisy: seq<Event>)
    decreases |noisy|
  {
    if noisy == [] then stream == []
    else
      var earlier, last := noisy[..|noisy| - 1], noisy[|noisy| - 1];
      || (stream != [] && stream[|stream| - 1] == last && Redelivers(stream[..|stream| - 1], earlier))
      || (last in Accepted(stream) && Redelivers(stream, earlier))
  }

  /** Redeliveries are invisible: the noisy stream ends in the same state and accepts the same events. */
  lemma {:induction false} RedeliveriesChangeNothing(stream: seq<Event>, noisy: seq<Event>)
    requires Redelivers(stream, noisy)
    ensures Run(noisy) == Run(stream) && Accepted(noisy) == Accepted(stream)
    decreases |noisy|
  {
    if noisy != [] {
      var earlier, last := noisy[..|noisy| - 1], noisy[|noisy| - 1];
      if stream != [] && stream[|stream| - 1] == last && Redelivers(stream[..|stream| - 1], earlier) {
        RedeliveriesChangeNothing(stream[..|stream| - 1], earlier);
      } else {
        RedeliveriesChangeNothing(stream, earlier);
        RedeliveryIsInvisible(stream, last, []);
      }
    }
  }

  /** The stream without repeated deliveries, told apart by nothing but their content. */
  function Dedupe(stream: seq<Event>): seq<Event> {
    if stream == [] then []
    else
      var earlier, last := Dedupe(stream[..|stream| - 1]), stream[|stream| - 1];
      if last in earlier then earlier else earlier + [last]
  }

  lemma {:induction false} DedupeKeepsEvents(stream: seq<Event>, e: Event)
    ensures e in Dedupe(stream) <==> e in stream
  {
    if stream != [] {
      var earlier, last := stream[..|stream| - 1], stream[|stream| - 1];
      DedupeKeepsEvents(earlier, e);
      DedupeKeepsEvents(earlier, last);
      assert stream == earlier + [last];
    }
  }

  /** No event is accepted where it had already been delivered: every accepted event is at its first delivery. */
  predicate AcceptsFirstDeliveries(stream: seq<Event>) {
    forall k :: 0 <= k < |stream| && Accepts(Run(stream[..k]), stream[k]) ==> stream[k] !in stream[..k]
  }

  lemma FirstDeliveriesOfPrefix(stream: seq<Event>)
    requires stream != []
    ensures var earlier, last := stream[..|stream| - 1], stream[|stream| - 1];
            AcceptsFirstDeliveries(stream) <==>
              AcceptsFirstDeliveries(earlier) && (Accepts(Run(earlier), last) ==> last !in earlier)
  {
    hide Run, Accepts;
    var earlier := stream[..|stream| - 1];
    assert forall k :: 0 <= k < |earlier| ==> earlier[..k] == stream[..k] && earlier[k] == stream[k];
  }

  lemma {:induction false} FirstDeliveriesSuffice(stream: seq<Event>)
    requires AcceptsFirstDeliveries(stream)
    ensures Run(stream) == Run(Dedupe(stream)) && Accepted(stream) == Accepted(Dedupe(stream))
  {
    if stream != [] {
      var earlier, last := stream[..|stream| - 1], stream[|stream| - 1];
      FirstDeliveriesOfPrefix(stream);
      FirstDeliveriesSuffice(earlier);
      DedupeKeepsEvents(earlier, last);
      var clean := Dedupe(stream);
      assert last !in earlier ==> clean[..|clean| - 1] == Dedupe(earlier);
    }
  }

  /** The table never forgets an accepted event, and knows no other under its identifier. */
  lemma SameTableSameEvents(a: seq<Event>, b: seq<Event>, e: Event)
    requires Run(a) == Run(b) && e in Accepted(a)
    ensures e in Accepted(b)
  {
    AcceptedEventsAreNumbered(a);
    AcceptedEventsAreNumbered(b);
    var i :| 0 <= i < |Accepted(a)| && Accepted(a)[i] == e;
    KnownId(Accepted(a), i);
    var j :| 0 <= j < |Accepted(b)| && Accepted(b)[j].id == e.id;
    assert Run(b).seen[Accepted(b)[j].id] == Fingerprint(Accepted(b)[j]);
  }

  /** Where the property fails first, an event is accepted that the stream without repeats never accepts. */
  lemma {:induction false} RepeatIsAcceptedOnlyOnce(stream: seq<Event>) returns (e: Event)
    requires !AcceptsFirstDeliveries(stream)
    ensures e in stream && e in Accepted(stream) && e !in Accepted(Dedupe(stream))
  {
    var earlier, last := stream[..|stream| - 1], stream[|stream| - 1];
    FirstDeliveriesOfPrefix(stream);
    DedupeKeepsEvents(earlier, last);
    var clean := Dedupe(stream);
    assert last !in earlier ==> clean[..|clean| - 1] == Dedupe(earlier);
    if AcceptsFirstDeliveries(earlier) {
      e := last;
      FirstDeliveriesSuffice(earlier);
      NewIsNotAccepted(earlier, last);
    } else {
      e := RepeatIsAcceptedOnlyOnce(earlier);
      assert stream[..|stream| - 1] == earlier;
      DedupeKeepsEvents(earlier, e);
    }
    assert e in stream;
  }

  lemma NewIsNotAccepted(stream: seq<Event>, e: Event)
    requires Accepts(Run(stream), e)
    ensures e !in Accepted(stream)
  {
    AcceptedEventsAreNumbered(stream);
    forall i | 0 <= i < |Accepted(stream)|
      ensures Accepted(stream)[i].id in Run(stream).seen
    {
      KnownId(Accepted(stream), i);
    }
  }

  /**
   Dedupe equivalence: a session ends in the same state on a stream and on the stream without its repeats
   if and only if no event is accepted where it had already been delivered.
   */
  lemma RunEqualsRunOfDedupe(stream: seq<Event>)
    ensures Run(stream) == Run(Dedupe(stream)) <==> AcceptsFirstDeliveries(stream)
  {
    if AcceptsFirstDeliveries(stream) {
      FirstDeliveriesSuffice(stream);
    } else {
      var e := RepeatIsAcceptedOnlyOnce(stream);
      if Run(stream) == Run(Dedupe(stream)) {
        SameTableSameEvents(stream, Dedupe(stream), e);
      }
    }
  }

  /** In particular when each event, delivered once, is acceptable: then repeats, however late, change nothing. */
  lemma {:induction false} AcceptableStreamsAbsorbRepeats(stream: seq<Event>)
    requires Accepted(Dedupe(stream)) == Dedupe(stream)
    ensures AcceptsFirstDeliveries(stream) && Run(stream) == Run(Dedupe(stream)) && Accepted(stream) == Dedupe(stream)
  {
    if !AcceptsFirstDeliveries(stream) {
      var e := RepeatIsAcceptedOnlyOnce(stream);
      DedupeKeepsEvents(stream, e);
    }
    FirstDeliveriesSuffice(stream);
  }

  /** An event that was refused for coming too early is no redelivery: delivered again, it may be accepted. */
  lemma RefusedEventMayBeAcceptedLater()
    ensures var first, second := Event("a", 1, Connected), Event("b", 2, Other(""));
            Run([second, first, second]) != Run(Dedupe([second, first, second]))
  {
    var first, second := Event("a", 1, Connected), Event("b", 2, Other(""));
    var stream := [second, first, second];
    assert stream[..2] == [second, first] && [second, first][..1] == [second] && [second][..0] == [];
    assert Dedupe([second]) == [second];
    assert Dedupe(stream) == [second, first];
    assert Run([second]) == NEW_SESSION;
    assert Run([second, first]).lastSequence == 1;
    assert Run(stream).lastSequence == 2;
  }

  /** Terminal states absorb: from then on nothing is accepted and nothing changes. */
  lemma {:induction false} TerminalAbsorbs(before: seq<Event>, after: seq<Event>)
    requires TerminalState(Run(before).state)
    ensures Run(before + after) == Run(before) && Accepted(before + after) == Accepted(before)
    decreases |after|
  {
    if after == [] {
      assert before + after == before;
    } else {
      var init := after[..|after| - 1];
      TerminalAbsorbs(before, init);
      assert (before + after)[..|before + after| - 1] == before + init;
    }
  }

  // ---------------------------------------------------------------- the state of a session

  /** The event changes the state of a session, and to what. */
  predicate Leads(kind: EventKind, state: SessionState) {
    || (kind.Connected? && state == Active)
    || (kind.ResponseInterrupted? && state == Interrupted)
    || (kind.CloseEvent? && state == Closed)
    || (kind.ErrorEvent? && state == Failed)
  }

  /** The last state-changing event of a stream of accepted events, if there is one, leads to this state. */
  ghost predicate EndsIn(accepted: seq<Event>, state: SessionState) {
    if forall k :: 0 <= k < |accepted| ==> accepted[k].kind.Other? then state == Connecting
    else exists k :: 0 <= k < |accepted| && Leads(accepted[k].kind, state)
                     && forall j :: k < j < |accepted| ==> accepted[j].kind.Other?
  }

  lemma StateFollows(kept: seq<Event>, state: SessionState, last: Event)
    requires EndsIn(kept, state)
    ensures EndsIn(kept + [last], NextState(state, last.kind))
  {
    var more := kept + [last];
    assert more[|kept|] == last;
    assert forall k :: 0 <= k < |kept| ==> more[k] == kept[k];
    if last.kind.Other? {
      if !(forall k :: 0 <= k < |kept| ==> kept[k].kind.Other?) {
        var k :| 0 <= k < |kept| && Leads(kept[k].kind, state) && forall j :: k < j < |kept| ==> kept[j].kind.Other?;
        assert Leads(more[k].kind, state) && !more[k].kind.Other?;
      }
    } else {
      assert Leads(more[|kept|].kind, NextState(state, last.kind));
    }
  }

  /** After any stream the state is that of the last accepted event that changes it; a new session is connecting. */
  lemma {:induction false} StateIsTheLastChange(stream: seq<Event>)
    ensures EndsIn(Accepted(stream), Run(stream).state)
  {
    hide EndsIn, NextState;
    if stream == [] {
      NothingAccepted();
    } else {
      var earlier, last := stream[..|stream| - 1], stream[|stream| - 1];
      StateIsTheLastChange(earlier);
      if Accepts(Run(earlier), last) {
        StateFollows(Accepted(earlier), Run(earlier).state, last);
      }
    }
  }

  lemma NothingAccepted()
    ensures EndsIn([], Connecting)
  {
  }

  /** The next event of an open session, under a new identifier and the next number, is accepted. */
  lemma NextEventIsAccepted(stream: seq<Event>, e: Event)
    requires !TerminalState(Run(stream).state) && |Accepted(stream)| < MAX_DEDUPE_EVENTS
    ensures Accepts(Run(stream), e) <==>
              e.sequence == |Accepted(stream)| + 1 && forall k :: 0 <= k < |Accepted(stream)| ==> Accepted(stream)[k].id != e.id
  {
    hide Run, Accepted;
    AcceptedEventsAreNumbered(stream);
    var accepted := Accepted(stream);
    assert e.id in Run(stream).seen <==> exists k :: 0 <= k < |accepted| && accepted[k].id == e.id;
  }
}
