/** HTTP handlers that reply after they have returned: when responses overtake one
    another, how many reads are then outstanding, and what a reply from another thread
    does to the queue. */
module HttpReplies {
  import opened HttpPipeline

  lemma Extend(states: seq<Session>, events: seq<Event>, e: Event) returns (states': seq<Session>, events': seq<Event>)
    requires Run(states, events) && Possible(states[|events|], e) && (e.WriteDone? ==> states[|events|].items != [])
    ensures Run(states', events') && states'[|events'|] == Next(states[|events|], e)
  {
    states', events' := states + [Next(states[|events|], e)], events + [e];
  }

  // ---------------------------------------------------------- order of responses

  ghost predicate InOrder(responses: seq<Response>) {
    forall j :: 0 <= j < |responses| ==> responses[j].request == j
  }

  /** A response is handed over before that of an earlier request. */
  predicate Overtakes(s: Session, e: Event) {
    match e
    case ReadDone(result) => result.ReadReplied? && s.waiting != []
    case WriteDone(_, _) => false
    case LateReply(i, _) => i != 0
  }

  /** The requests still waiting are the ones after those answered. */
  ghost predicate Numbered(s: Session) {
    && s.requests == |s.pushed| + |s.waiting|
    && forall j :: 0 <= j < |s.waiting| ==> s.waiting[j] == |s.pushed| + j
  }

  lemma PushOrder(pushed: seq<Response>, response: Response)
    requires InOrder(pushed)
    ensures InOrder(pushed + [response]) <==> response.request == |pushed|
  {
    var all := pushed + [response];
    assert all[|pushed|] == response;
    assert forall j :: 0 <= j < |pushed| ==> all[j] == pushed[j];
  }

  lemma OldestLeaves(waiting: seq<nat>, k: nat)
    requires waiting != [] && forall j :: 0 <= j < |waiting| ==> waiting[j] == k + j
    ensures
      var rest := waiting[..0] + waiting[1..];
      |rest| == |waiting| - 1 && forall j :: 0 <= j < |rest| ==> rest[j] == k + 1 + j
  {
  }

  lemma ReplyOrderStep(s: Session, i: nat, close: bool)
    requires Numbered(s) && InOrder(s.pushed) && i < |s.waiting|
    ensures
      var r := Next(s, LateReply(i, close));
      if i == 0 then Numbered(r) && InOrder(r.pushed)
      else |r.pushed| > |s.pushed| && r.pushed[|s.pushed|].request != |s.pushed|
  {
    PushOrder(s.pushed, Response(s.waiting[i], close));
    OldestLeaves(s.waiting, |s.pushed|);
  }

  lemma OrderStep(s: Session, e: Event)
    requires Numbered(s) && InOrder(s.pushed) && Possible(s, e) && (e.WriteDone? ==> s.items != [])
    ensures !Overtakes(s, e) ==> Numbered(Next(s, e)) && InOrder(Next(s, e).pushed)
    ensures Overtakes(s, e) ==> |Next(s, e).pushed| > |s.pushed| && Next(s, e).pushed[|s.pushed|].request != |s.pushed|
  {
    match e
    case ReadDone(result) =>
      if result.ReadReplied? {
        PushOrder(s.pushed, Response(s.requests, result.close));
      }
    case WriteDone(_, _) =>
    case LateReply(i, close) => ReplyOrderStep(s, i, close);
  }

  lemma PushedGrows(s: Session, e: Event)
    requires Possible(s, e) && (e.WriteDone? ==> s.items != [])
    ensures s.pushed <= Next(s, e).pushed
  {
  }

  lemma {:induction false} RunPushedGrows(states: seq<Session>, events: seq<Event>, m: nat, n: nat)
    requires Run(states, events) && m <= n < |states|
    ensures states[m].pushed <= states[n].pushed
    decreases n
  {
    if m < n {
      RunPushedGrows(states, events, m, n - 1);
      PushedGrows(states[n - 1], events[n - 1]);
    }
  }

  ghost predicate NoneOvertakes(states: seq<Session>, events: seq<Event>, n: nat)
    requires n <= |events| <= |states|
  {
    forall i :: 0 <= i < n ==> !Overtakes(states[i], events[i])
  }

  lemma {:induction false} OrderKept(states: seq<Session>, events: seq<Event>, n: nat)
    requires Run(states, events) && n <= |events| && NoneOvertakes(states, events, n)
    ensures Numbered(states[n]) && InOrder(states[n].pushed)
  {
    if n > 0 {
      OrderKept(states, events, n - 1);
      OrderStep(states[n - 1], events[n - 1]);
    }
  }

  lemma {:induction false} FirstOvertaking(states: seq<Session>, events: seq<Event>, n: nat) returns (i: nat)
    requires n <= |events| <= |states| && !NoneOvertakes(states, events, n)
    ensures i < n && Overtakes(states[i], events[i]) && NoneOvertakes(states, events, i)
  {
    if NoneOvertakes(states, events, n - 1) {
      i := n - 1;
    } else {
      i := FirstOvertaking(states, events, n - 1);
    }
  }

  /** The first response to overtake lands in the place of another. */
  lemma Misplaced(states: seq<Session>, events: seq<Event>, n: nat) returns (i: nat)
    requires Run(states, events) && n <= |events| && !NoneOvertakes(states, events, n)
    ensures i < n && Overtakes(states[i], events[i]) && NoneOvertakes(states, events, i)
    ensures InOrder(states[i].pushed) && states[i].pushed <= states[n].pushed
    ensures |states[n].pushed| > |states[i].pushed|
    ensures states[n].pushed[|states[i].pushed|].request != |states[i].pushed|
  {
    i := FirstOvertaking(states, events, n);
    OrderKept(states, events, i);
    OrderStep(states[i], events[i]);
    RunPushedGrows(states, events, i, n);
    RunPushedGrows(states, events, i + 1, n);
  }

  /** Responses are handed over in request order exactly when none overtakes: no late
      reply but the one to the oldest waiting request, and no immediate reply while
      another request waits. */
  lemma OrderIff(states: seq<Session>, events: seq<Event>, n: nat)
    requires Run(states, events) && n <= |events|
    ensures InOrder(states[n].pushed) <==> NoneOvertakes(states, events, n)
  {
    if NoneOvertakes(states, events, n) {
      OrderKept(states, events, n);
    } else {
      var i := Misplaced(states, events, n);
    }
  }

  /** What the client sees: section 6.3.2 of RFC 7230 is met so far exactly when no
      write has reached the place of a response that overtook. */
  lemma StartedOrderIff(states: seq<Session>, events: seq<Event>, n: nat)
    requires Run(states, events) && n <= |events|
    ensures
      InOrder(states[n].started) <==>
      forall i :: 0 <= i < n && Overtakes(states[i], events[i]) ==> |states[n].started| <= |states[i].pushed|
  {
    var started, pushed := states[n].started, states[n].pushed;
    PipelineWrites(states, events, n);
    assert forall j :: 0 <= j < |started| ==> started[j] == pushed[j];
    if NoneOvertakes(states, events, n) {
      OrderKept(states, events, n);
    } else {
      var first := Misplaced(states, events, n);
      var place := |states[first].pushed|;
      if |started| > place {
        assert started[place].request != place;
      } else {
        assert forall j :: 0 <= j < |started| ==> started[j] == states[first].pushed[j];
        forall i | 0 <= i < n && Overtakes(states[i], events[i])
          ensures |started| <= |states[i].pushed|
        {
          assert first <= i;
          RunPushedGrows(states, events, first, i);
        }
      }
    }
  }

  /** Two requests are read; the second handler replies first, and is written first. */
  lemma OvertakingHappens() returns (states: seq<Session>, events: seq<Event>)
    ensures Run(states, events) && |states[|events|].started| == 1 && states[|events|].started[0].request == 1
    ensures forall n :: 0 <= n < |states| ==> states[n].openReads == 1
  {
    events := [ReadDone(ReadDeferred), ReadDone(ReadDeferred), LateReply(1, false)];
    var s1 := Next(FRESH, ReadDone(ReadDeferred));
    var s2 := Next(s1, ReadDone(ReadDeferred));
    states := [FRESH, s1, s2, Next(s2, LateReply(1, false))];
  }

  // ---------------------------------------------------------- outstanding reads

  /** A late reply that fills the queue, or comes to a full one, costs no read. */
  predicate LateFill(s: Session, e: Event) {
    e.LateReply? && |s.items| >= LIMIT - 1
  }

  /** A deferred request that finds the queue full costs a read and queues nothing. */
  predicate DeferredAtLimit(s: Session, e: Event) {
    e.ReadDone? && e.result.ReadDeferred? && |s.items| >= LIMIT
  }

  function LateFills(states: seq<Session>, events: seq<Event>, n: nat): nat
    requires n <= |events| <= |states|
  {
    if n == 0 then 0
    else LateFills(states, events, n - 1) + (if LateFill(states[n - 1], events[n - 1]) then 1 else 0)
  }

  function DeferredAtLimits(states: seq<Session>, events: seq<Event>, n: nat): nat
    requires n <= |events| <= |states|
  {
    if n == 0 then 0
    else DeferredAtLimits(states, events, n - 1) + (if DeferredAtLimit(states[n - 1], events[n - 1]) then 1 else 0)
  }

  /** The responses queued from the limit on. */
  function Excess(items: seq<Response>): nat {
    if |items| < LIMIT then 0 else |items| - LIMIT + 1
  }

  lemma ReadsBalanceStep(s: Session, e: Event)
    requires Possible(s, e) && (e.WriteDone? ==> s.items != []) && !Next(s, e).over
    ensures !s.over
    ensures
      var r := Next(s, e);
      && r.openReads + Excess(r.items) + (if DeferredAtLimit(s, e) then 1 else 0)
         == s.openReads + Excess(s.items) + (if LateFill(s, e) then 1 else 0)
  {
  }

  /** The exact account of outstanding reads, whenever handlers reply. */
  lemma {:induction false} ReadsBalance(states: seq<Session>, events: seq<Event>, n: nat)
    requires Run(states, events) && n <= |events| && !states[n].over
    ensures
      states[n].openReads + Excess(states[n].items) + DeferredAtLimits(states, events, n)
      == 1 + LateFills(states, events, n)
  {
    if n > 0 {
      ReadsBalanceStep(states[n - 1], events[n - 1]);
      ReadsBalance(states, events, n - 1);
    }
  }

  /** One read below the limit and none at it, as with handlers that reply before
      returning, exactly when late fills and deferred requests at the limit balance,
      up to the responses beyond the limit. A second read is outstanding exactly when
      the late fills prevail. */
  lemma ReadsIff(states: seq<Session>, events: seq<Event>, n: nat)
    requires Run(states, events) && n <= |events| && !states[n].over
    ensures
      var s, surplus := states[n], LateFills(states, events, n) - DeferredAtLimits(states, events, n);
      && (s.openReads == (if |s.items| < LIMIT then 1 else 0) <==>
          surplus == if |s.items| < LIMIT then 0 else |s.items| - LIMIT)
      && (s.openReads > 1 <==> surplus > Excess(s.items))
  {
    ReadsBalance(states, events, n);
  }

  /** A write completes from a full queue while a read is outstanding. */
  predicate StartsSecondRead(s: Session, e: Event) {
    && e.WriteDone? && e.outcome.Written? && e.i < |s.inFlight| && !s.inFlight[e.i].close
    && IsFull(s.items) && s.openReads >= 1
  }

  lemma DoubleReadStep(s: Session, e: Event)
    requires Possible(s, e) && (e.WriteDone? ==> s.items != []) && s.openReads <= 1
    ensures Next(s, e).openReads > 1 <==> StartsSecondRead(s, e)
  {
  }

  /** In a run two reads have at some time been outstanding exactly when a write has
      completed from a full queue while a read was outstanding. */
  lemma {:induction false} DoubleReadIff(states: seq<Session>, events: seq<Event>, n: nat)
    requires Run(states, events) && n <= |events|
    ensures
      (exists m :: 0 <= m <= n && states[m].openReads > 1) <==>
      (exists i :: 0 <= i < n && StartsSecondRead(states[i], events[i]))
  {
    if n > 0 {
      DoubleReadIff(states, events, n - 1);
      var s, e := states[n - 1], events[n - 1];
      if s.openReads <= 1 {
        DoubleReadStep(s, e);
      }
      assert StartsSecondRead(s, e) ==> states[n].openReads > 1;
    }
  }

  lemma {:induction false} DeferMany(n: nat) returns (states: seq<Session>, events: seq<Event>)
    ensures Run(states, events)
    ensures var s := states[|events|]; |s.waiting| == n && s.items == [] && s.openReads == 1 && s.inFlight == []
  {
    if n == 0 {
      states, events := [FRESH], [];
    } else {
      states, events := DeferMany(n - 1);
      states, events := Extend(states, events, ReadDone(ReadDeferred));
    }
  }

  lemma {:induction false} ReplyMany(n: nat, more: nat) returns (states: seq<Session>, events: seq<Event>)
    ensures Run(states, events)
    ensures
      var s := states[|events|];
      && |s.waiting| == more && |s.items| == n && s.openReads == 1
      && (if n == 0 then s.inFlight == [] else |s.inFlight| == 1 && !s.inFlight[0].close)
    decreases n
  {
    if n == 0 {
      states, events := DeferMany(more);
    } else {
      states, events := ReplyMany(n - 1, more + 1);
      states, events := Extend(states, events, LateReply(0, false));
    }
  }

  /** And it happens: eight requests are read before their handlers reply. */
  lemma DoubleReadHappens() returns (states: seq<Session>, events: seq<Event>)
    ensures Run(states, events) && states[|events|].openReads == 2
  {
    states, events := ReplyMany(LIMIT, 0);
    states, events := Extend(states, events, WriteDone(0, Written));
  }

  // ------------------------------------------------- a reply from another thread

  /** The two halves of handing a response to the queue. */
  function Store(s: Session, response: Response): Session {
    s.(items := s.items + [response], pushed := s.pushed + [response])
  }

  function StartIfAlone(s: Session): Session {
    if |s.items| == 1 then StartWrite(s) else s
  }

  /** Nothing in between: the handing over of the runs above. */
  lemma Undisturbed(s: Session, response: Response)
    requires WriteInv(s)
    ensures StartIfAlone(Store(s, response)) == Push(s, response) && WriteInv(StartIfAlone(Store(s, response)))
  {
    PushKeepsWrites(s, response);
  }

  predicate OnStrand(e: Event) {
    !e.LateReply?
  }

  function Appended(events: seq<Event>): nat {
    if events == [] then 0
    else Appended(events[..|events| - 1]) + (if IsReplied(events[|events| - 1]) then 1 else 0)
  }

  predicate IsReplied(e: Event) {
    e.ReadDone? && e.result.ReadReplied?
  }

  function Completed(events: seq<Event>): nat {
    if events == [] then 0
    else Completed(events[..|events| - 1]) + (if events[|events| - 1].WriteDone? then 1 else 0)
  }

  /** No write of what is queued has been started. */
  ghost predicate Unstarted(q: Session) {
    && q.items != [] && q.inFlight == [] && q.pushed == q.sent + q.items && q.started == q.sent
    && forall i :: 0 <= i < |q.sent| ==> !q.sent[i].close
  }

  /** Between the halves: with a write outstanding all is as usual; a response stored
      in an empty queue waits unwritten and those behind it do too. */
  ghost predicate Between(s: Session, q: Session, events: seq<Event>) {
    && |q.items| == |s.items| + 1 + Appended(events) - Completed(events)
    && (if s.items != [] then WriteInv(q) else Unstarted(q) && Completed(events) == 0)
  }

  lemma BetweenStep(s: Session, q: Session, events: seq<Event>, e: Event)
    requires Between(s, q, events) && Possible(q, e) && OnStrand(e) && (e.WriteDone? ==> q.items != [])
    requires !Next(q, e).over
    ensures Between(s, Next(q, e), events + [e])
  {
    assert (events + [e])[..|events|] == events;
    if s.items != [] {
      WriteStep(q, e);
    } else if IsReplied(e) {
      var response := Response(q.requests, e.result.close);
      assert q.sent + (q.items + [response]) == q.pushed + [response];
    }
  }

  /** Strand events between the halves, after which the session still goes on. */
  ghost predicate Window(s: Session, response: Response, states: seq<Session>, events: seq<Event>) {
    && Segment(states, events) && states[0] == Store(s, response) && !states[|events|].over
    && forall i :: 0 <= i < |events| ==> OnStrand(events[i])
  }

  lemma StaysOver(s: Session, e: Event)
    requires Possible(s, e) && (e.WriteDone? ==> s.items != []) && s.over
    ensures Next(s, e).over
  {
  }

  lemma {:induction false} WindowBetween(s: Session, response: Response, states: seq<Session>, events: seq<Event>)
    requires WriteInv(s) && !s.over && Window(s, response, states, events)
    ensures Between(s, states[|events|], events)
    decreases |events|
  {
    if events == [] {
      StoreBehind(s, response);
    } else {
      var n := |events| - 1;
      if states[n].over {
        StaysOver(states[n], events[n]);
      }
      WindowBetween(s, response, states[..|events|], events[..n]);
      BetweenStep(s, states[n], events[..n], events[n]);
      assert events[..n] + [events[n]] == events;
    }
  }

  lemma StoreBehind(s: Session, response: Response)
    requires WriteInv(s) && !s.over
    ensures Between(s, Store(s, response), [])
  {
    if s.items != [] {
      PushKeepsWrites(s, response);
    }
  }

  lemma RaceInState(s: Session, q: Session, events: seq<Event>)
    requires Between(s, q, events) && !q.over
    ensures
      var r := StartIfAlone(q);
      && (|r.inFlight| == 2 <==> s.items != [] && |q.items| == 1)
      && (r.items != [] && r.inFlight == [] <==> s.items == [] && |q.items| > 1)
      && (WriteInv(r) <==> if s.items == [] then |q.items| == 1 else |q.items| != 1)
  {
    if s.items == [] && |q.items| == 1 {
      assert q.sent + q.items == q.sent + [q.items[0]];
    }
  }

  /** A response stored from another thread, any events on the strand, then the test
      whether it is alone. A second write is started exactly when a response was ahead
      and every other one has completed meanwhile; the queue stalls exactly when none
      was ahead and another was added meanwhile; else all is as usual. */
  lemma RaceOutcome(s: Session, response: Response, states: seq<Session>, events: seq<Event>)
    requires WriteInv(s) && !s.over && Window(s, response, states, events)
    ensures
      var r := StartIfAlone(states[|events|]);
      var twice := s.items != [] && Completed(events) == |s.items| + Appended(events);
      var stall := s.items == [] && Appended(events) > 0;
      && (|r.inFlight| == 2 <==> twice)
      && (r.items != [] && r.inFlight == [] <==> stall)
      && (WriteInv(r) <==> !twice && !stall)
  {
    WindowBetween(s, response, states, events);
    RaceInState(s, states[|events|], events);
  }

  /** Once stalled, nothing is written any more. */
  lemma StalledForGood(s: Session, e: Event)
    requires |s.items| > 1 && s.inFlight == [] && Possible(s, e)
    ensures !e.WriteDone?
    ensures |Next(s, e).items| > 1 && Next(s, e).inFlight == [] && Next(s, e).started == s.started
  {
  }

  lemma {:induction false} StalledSegment(states: seq<Session>, events: seq<Event>, n: nat)
    requires Segment(states, events) && n < |states| && |states[0].items| > 1 && states[0].inFlight == []
    ensures |states[n].items| > 1 && states[n].inFlight == [] && states[n].started == states[0].started
  {
    if n > 0 {
      StalledSegment(states, events, n - 1);
      StalledForGood(states[n - 1], events[n - 1]);
    }
  }

  /** The session when the `i`th waiting handler replies. */
  function Answering(s: Session, i: nat): Session
    requires i < |s.waiting|
  {
    s.(waiting := s.waiting[..i] + s.waiting[i + 1..])
  }

  /** Both happen: a reply stored while the only other response completes is written
      twice at once. */
  lemma TwoWritesHappen() returns (run: seq<Session>, earlier: seq<Event>, states: seq<Session>, events: seq<Event>)
    ensures Run(run, earlier) && run[|earlier|].waiting == [0]
    ensures Window(Answering(run[|earlier|], 0), Response(0, false), states, events)
    ensures |StartIfAlone(states[|events|]).inFlight| == 2
  {
    earlier := [ReadDone(ReadDeferred), ReadDone(ReadReplied(false))];
    var s1 := Next(FRESH, ReadDone(ReadDeferred));
    run := [FRESH, s1, Next(s1, ReadDone(ReadReplied(false)))];
    events := [WriteDone(0, Written)];
    var stored := Store(Answering(run[2], 0), Response(0, false));
    states := [stored, Next(stored, WriteDone(0, Written))];
  }

  lemma StallHappens() returns (run: seq<Session>, earlier: seq<Event>, states: seq<Session>, events: seq<Event>)
    ensures Run(run, earlier) && run[|earlier|].waiting == [0]
    ensures Window(Answering(run[|earlier|], 0), Response(0, false), states, events)
    ensures |StartIfAlone(states[|events|]).items| == 2 && StartIfAlone(states[|events|]).inFlight == []
  {
    earlier := [ReadDone(ReadDeferred)];
    run := [FRESH, Next(FRESH, ReadDone(ReadDeferred))];
    events := [ReadDone(ReadReplied(false))];
    var stored := Store(Answering(run[1], 0), Response(0, false));
    states := [stored, Next(stored, ReadDone(ReadReplied(false)))];
  }
}
