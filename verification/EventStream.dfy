/** The event stream of one client: it polls the ledger on a cursor while others keep recording. */
module EventStream {
  import opened Prelude
  import opened ShowcaseLedger
  import opened LedgerHistory

  // batch is what the last poll read and has not yet yielded; lost remembers that some poll found
  // more unread events than the ledger retains.
  datatype Stream = Stream(
    history: History, cursor: nat, batch: seq<ShowcaseEvent>, sent: seq<ShowcaseEvent>, lost: bool)

  datatype Action = Record(draft: Draft) | Poll | Yield

  function Do(s: Stream, a: Action): Stream {
    match a
    case Record(d) => s.(history := HistoryStep(s.history, d))
    case Poll =>
      if s.batch != [] then s
      else s.(batch := EventsAfter(s.history.ledger.events, s.cursor), lost := s.lost || Behind(s))
    case Yield =>
      if s.batch == [] then s
      else s.(cursor := s.batch[0].sequence, sent := s.sent + [s.batch[0]], batch := s.batch[1..])
  }

  predicate Behind(s: Stream) {
    |s.history.stream| - s.cursor > s.history.ledger.maxEvents
  }

  // A client that connects with a cursor to a run that already has a history.
  function Connected(h: History, after: nat): Stream {
    Stream(h, after, [], [], false)
  }

  function Run(h: History, after: nat, actions: seq<Action>): Stream {
    RunFrom(Do, Connected(h, after), actions)
  }

  // ------------------------------------------------------------ invariant

  function Last(sent: seq<ShowcaseEvent>, after: nat): nat {
    if sent == [] then after else sent[|sent| - 1].sequence
  }

  // Every event is a recorded one, in its place in the stream, beyond the cursor the client gave.
  predicate Genuine(events: seq<ShowcaseEvent>, stream: seq<ShowcaseEvent>, after: nat) {
    forall i :: 0 <= i < |events| ==>
      after < events[i].sequence <= |stream| && events[i] == stream[events[i].sequence - 1]
  }

  predicate Rising(events: seq<ShowcaseEvent>) {
    forall i, j :: 0 <= i < j < |events| ==> events[i].sequence < events[j].sequence
  }

  predicate Unbroken(events: seq<ShowcaseEvent>, after: nat) {
    forall i :: 0 <= i < |events| ==> events[i].sequence == after + i + 1
  }

  ghost predicate StreamInv(s: Stream, after: nat) {
    && LedgerHistory.Inv(s.history) && s.history.ledger.maxEvents > 0
    && s.cursor == Last(s.sent, after)
    && Genuine(s.sent + s.batch, s.history.stream, after)
    && Rising(s.sent + s.batch)
    && (s.lost <==> !Unbroken(s.sent + s.batch, after))
  }

  lemma RecordKeeps(s: Stream, d: Draft, after: nat)
    requires StreamInv(s, after)
    ensures StreamInv(Do(s, Record(d)), after)
  {
    InvStep(s.history, d, s.history.ledger.runId, s.history.ledger.maxEvents);
    GrowthKeepsGenuine(s.sent + s.batch, s.history.stream, HistoryStep(s.history, d).stream, after);
  }

  lemma GrowthKeepsGenuine(
    events: seq<ShowcaseEvent>, stream: seq<ShowcaseEvent>, longer: seq<ShowcaseEvent>, after: nat)
    requires Genuine(events, stream, after) && stream <= longer
    ensures Genuine(events, longer, after)
  {
  }

  lemma YieldKeeps(s: Stream, after: nat)
    requires StreamInv(s, after) && s.batch != []
    ensures StreamInv(Do(s, Yield), after)
  {
    assert s.sent + [s.batch[0]] + s.batch[1..] == s.sent + s.batch;
    var t := Do(s, Yield);
    assert t.sent[|t.sent| - 1] == s.batch[0];
  }

  lemma PollKeeps(s: Stream, after: nat)
    requires StreamInv(s, after) && s.batch == []
    ensures StreamInv(Do(s, Poll), after)
  {
    var stream, from := s.history.stream, ReadFrom(s.history, s.cursor);
    ReadsOf(s.history, s.cursor);
    SuffixNumbers(s.history, from);
    assert s.sent + [] == s.sent;
    CursorIsPast(s, after);
    PolledEvents(s.sent, stream, from, s.cursor, after);
  }

  // Everything sent is at or before the cursor.
  lemma CursorIsPast(s: Stream, after: nat)
    requires Rising(s.sent) && Genuine(s.sent, s.history.stream, after) && s.cursor == Last(s.sent, after)
    ensures forall i :: 0 <= i < |s.sent| ==> s.sent[i].sequence <= s.cursor
    ensures after <= s.cursor
    ensures Unbroken(s.sent, after) ==> s.cursor == after + |s.sent|
  {
  }

  lemma PolledEvents(sent: seq<ShowcaseEvent>, stream: seq<ShowcaseEvent>, from: nat, cursor: nat, after: nat)
    requires from <= |stream| && after <= cursor && (from < |stream| ==> cursor <= from)
    requires Genuine(sent, stream, after) && Rising(sent)
    requires forall i :: 0 <= i < |sent| ==> sent[i].sequence <= cursor
    requires Unbroken(sent, after) ==> cursor == after + |sent|
    requires forall i :: 0 <= i < |stream[from..]| ==> stream[from..][i].sequence == from + i + 1
    ensures Genuine(sent + stream[from..], stream, after) && Rising(sent + stream[from..])
    ensures Unbroken(sent + stream[from..], after) <==> Unbroken(sent, after) && (from == |stream| || from == cursor)
  {
    var rest, all := stream[from..], sent + stream[from..];
    forall i | 0 <= i < |all|
      ensures after < all[i].sequence <= |stream| && all[i] == stream[all[i].sequence - 1]
    {
      if i >= |sent| {
        assert all[i] == rest[i - |sent|] == stream[from + (i - |sent|)];
      } else {
        assert all[i] == sent[i];
      }
    }
    forall i, j | 0 <= i < j < |all| ensures all[i].sequence < all[j].sequence {
      if i >= |sent| {
        assert all[i] == rest[i - |sent|] && all[j] == rest[j - |sent|];
      } else if j >= |sent| {
        assert all[i] == sent[i] && all[j] == rest[j - |sent|];
      }
    }
    if Unbroken(all, after) {
      forall i | 0 <= i < |sent| ensures sent[i].sequence == after + i + 1 {
        assert all[i] == sent[i];
      }
      if from < |stream| {
        assert all[|sent|] == rest[0];
      }
    }
    if Unbroken(sent, after) && (from == |stream| || from == cursor) {
      forall i | 0 <= i < |all| ensures all[i].sequence == after + i + 1 {
        if i >= |sent| {
          assert all[i] == rest[i - |sent|];
        } else {
          assert all[i] == sent[i];
        }
      }
    }
  }

  lemma InvHolds(h: History, after: nat, actions: seq<Action>)
    requires LedgerHistory.Inv(h) && h.ledger.maxEvents > 0
    ensures StreamInv(Run(h, after, actions), after)
  {
    var inv := (s: Stream) => StreamInv(s, after);
    forall s: Stream, a | inv(s) ensures inv(Do(s, a)) {
      match a
      case Record(d) => RecordKeeps(s, d, after);
      case Poll =>
        if s.batch == [] {
          PollKeeps(s, after);
        }
      case Yield =>
        if s.batch != [] {
          YieldKeeps(s, after);
        }
    }
    RunInvariant(Do, inv, Connected(h, after), actions);
  }

  // ------------------------------------------------------------ main results

  // Whatever is recorded between its polls and yields, a client receives only recorded events, in
  // order and without repetition, and misses one exactly when some poll found more unread events
  // than the ledger retains.
  lemma ClientsReceiveInOrder(runId: string, maxEvents: nat, drafts: seq<Draft>, after: nat, actions: seq<Action>)
    requires maxEvents > 0
    ensures
      var s := Run(HistoryOf(runId, maxEvents, drafts), after, actions);
      && Genuine(s.sent, s.history.stream, after) && Rising(s.sent)
      && (!s.lost ==> Unbroken(s.sent, after))
      && (s.batch == [] ==> (s.lost <==> !Unbroken(s.sent, after)))
  {
    LedgerHistory.InvHolds(runId, maxEvents, drafts);
    InvHolds(HistoryOf(runId, maxEvents, drafts), after, actions);
    var s := Run(HistoryOf(runId, maxEvents, drafts), after, actions);
    SentIsSound(s.sent, s.batch, s.history.stream, after);
  }

  lemma SentIsSound(sent: seq<ShowcaseEvent>, batch: seq<ShowcaseEvent>, stream: seq<ShowcaseEvent>, after: nat)
    requires Genuine(sent + batch, stream, after) && Rising(sent + batch)
    ensures Genuine(sent, stream, after) && Rising(sent)
    ensures Unbroken(sent + batch, after) ==> Unbroken(sent, after)
    ensures batch == [] ==> sent + batch == sent
  {
    var all := sent + batch;
    assert forall i :: 0 <= i < |sent| ==> all[i] == sent[i];
  }

  // A poll that finds nothing, so that a keepalive is sent, means the client has caught up; and if
  // it never fell behind it then holds everything recorded beyond its first cursor.
  lemma KeepaliveMeansCaughtUp(runId: string, maxEvents: nat, drafts: seq<Draft>, after: nat, actions: seq<Action>)
    requires maxEvents > 0
    requires Run(HistoryOf(runId, maxEvents, drafts), after, actions).batch == []
    ensures
      var s := Run(HistoryOf(runId, maxEvents, drafts), after, actions);
      var n := |s.history.stream|;
      && (EventsAfter(s.history.ledger.events, s.cursor) == [] <==> n <= s.cursor)
      && (n <= s.cursor && !s.lost ==> s.sent == s.history.stream[Min(after, n)..])
  {
    LedgerHistory.InvHolds(runId, maxEvents, drafts);
    InvHolds(HistoryOf(runId, maxEvents, drafts), after, actions);
    var s := Run(HistoryOf(runId, maxEvents, drafts), after, actions);
    var n := |s.history.stream|;
    ReadsOf(s.history, s.cursor);
    assert |s.history.stream[ReadFrom(s.history, s.cursor)..]| == n - ReadFrom(s.history, s.cursor);
    assert s.sent + s.batch == s.sent;
    if n <= s.cursor && !s.lost {
      CursorIsPast(s, after);
      AllOfThem(s.sent, s.history.stream, after);
    }
  }

  lemma AllOfThem(sent: seq<ShowcaseEvent>, stream: seq<ShowcaseEvent>, after: nat)
    requires Genuine(sent, stream, after) && Unbroken(sent, after) && |stream| <= after + |sent|
    ensures sent == stream[Min(after, |stream|)..]
  {
    if sent != [] {
      assert sent[|sent| - 1].sequence == after + |sent|;
      forall i | 0 <= i < |sent| ensures sent[i] == stream[after + i] {
        assert sent[i].sequence == after + i + 1;
      }
    }
  }
}
