/** The pipelining queue of an HTTP session, coupled to its outstanding reads and
    writes. Completions of socket operations are events of the environment. */
module HttpPipeline {

  const LIMIT: nat := 8

  /** A response; `close` says that the connection must end after it. */
  datatype Response = Response(request: nat, close: bool)

  /** `items` is the pipeline; `openReads` and `inFlight` are the operations outstanding
      on the socket. `requests` numbers the requests read, `waiting` are those whose
      handler has not replied yet. `pushed`, `started` and `sent` record the
      responses handed to the queue, written, and taken off it again. `over` is set
      by the first closing write, error, end of stream or upgrade. */
  datatype Session = Session(
    items: seq<Response>,
    openReads: nat,
    inFlight: seq<Response>,
    requests: nat,
    waiting: seq<nat>,
    pushed: seq<Response>,
    started: seq<Response>,
    sent: seq<Response>,
    over: bool)

  /** How a completed read or write ended. */
  datatype ReadResult = ReadReplied(close: bool) | ReadDeferred | ReadUpgrade | ReadFailed
  datatype WriteResult = Written | WriteFailed

  /** A handler replies before it returns or later; `ReadFailed` stands for the end
      of the stream, an error or an abort, `WriteFailed` for an error or an abort. */
  datatype Event =
    | ReadDone(result: ReadResult)
    | WriteDone(i: nat, outcome: WriteResult)
    | LateReply(i: nat, close: bool)

  predicate IsFull(items: seq<Response>) {
    |items| >= LIMIT
  }

  /** Hands the front of the queue to the socket. */
  function StartWrite(s: Session): Session
    requires s.items != []
  {
    s.(inFlight := s.inFlight + [s.items[0]], started := s.started + [s.items[0]])
  }

  /** `queue::operator()`: stores the response and starts it if it is alone. */
  function Push(s: Session, response: Response): Session {
    var r := s.(items := s.items + [response], pushed := s.pushed + [response]);
    if |r.items| == 1 then StartWrite(r) else r
  }

  /** `queue::on_write`: drops the front and starts the next. */
  function Advance(s: Session): Session
    requires s.items != []
  {
    var r := s.(items := s.items[1..], sent := s.sent + [s.items[0]]);
    if r.items != [] then StartWrite(r) else r
  }

  function Read(s: Session): Session {
    s.(openReads := s.openReads + 1)
  }

  function OnRead(s: Session, result: ReadResult): Session
    requires s.openReads > 0
  {
    var r := s.(openReads := s.openReads - 1);
    match result
    case ReadReplied(close) =>
      var p := Push(r.(requests := r.requests + 1), Response(r.requests, close));
      if IsFull(p.items) then p else Read(p)
    case ReadDeferred =>
      var p := r.(requests := r.requests + 1, waiting := r.waiting + [r.requests]);
      if IsFull(p.items) then p else Read(p)
    case ReadUpgrade => r.(over := true)
    case ReadFailed => r.(over := true)
  }

  function OnWrite(s: Session, i: nat, outcome: WriteResult): Session
    requires i < |s.inFlight| && s.items != []
  {
    var close := s.inFlight[i].close;
    var r := s.(inFlight := s.inFlight[..i] + s.inFlight[i + 1..]);
    if outcome.WriteFailed? || close then r.(over := true)
    else if IsFull(r.items) then Read(Advance(r)) else Advance(r)
  }

  predicate Possible(s: Session, e: Event) {
    match e
    case ReadDone(_) => s.openReads > 0
    case WriteDone(i, _) => i < |s.inFlight|
    case LateReply(i, _) => i < |s.waiting|
  }

  function Next(s: Session, e: Event): Session
    requires Possible(s, e) && (e.WriteDone? ==> s.items != [])
  {
    match e
    case ReadDone(result) => OnRead(s, result)
    case WriteDone(i, outcome) => OnWrite(s, i, outcome)
    case LateReply(i, close) =>
      Push(s.(waiting := s.waiting[..i] + s.waiting[i + 1..]), Response(s.waiting[i], close))
  }

  /** A session after its constructor and `run`. */
  const FRESH: Session := Session([], 1, [], 0, [], [], [], [], false)

  /** Events in sequence, each possible when it happens; a completed write finds its
      response in the queue. */
  ghost predicate Segment(states: seq<Session>, events: seq<Event>) {
    && |states| == |events| + 1
    && forall i :: 0 <= i < |events| ==>
         && Possible(states[i], events[i]) && (events[i].WriteDone? ==> states[i].items != [])
         && states[i + 1] == Next(states[i], events[i])
  }

  /** A run from the start of the session. */
  ghost predicate Run(states: seq<Session>, events: seq<Event>) {
    Segment(states, events) && states[0] == FRESH
  }

  // ------------------------------------------------------------ the write side

  /** At most one write is outstanding and it writes the front of the queue; until
      the session is over one is outstanding exactly when the queue is non-empty.
      Responses are written in the order they were handed over, and only the last
      one written can be closing. */
  ghost predicate WriteInv(s: Session) {
    && |s.inFlight| <= 1
    && (s.inFlight != [] ==> s.items != [] && s.inFlight[0] == s.items[0])
    && (!s.over ==> (s.inFlight != [] <==> s.items != []))
    && s.pushed == s.sent + s.items
    && s.started == s.sent + (if s.items != [] then [s.items[0]] else [])
    && forall i :: 0 <= i < |s.sent| ==> !s.sent[i].close
  }

  lemma PushKeepsWrites(s: Session, response: Response)
    requires WriteInv(s)
    ensures WriteInv(Push(s, response))
  {
    assert s.sent + s.items + [response] == s.sent + (s.items + [response]);
    if s.items == [] {
      assert s.items + [response] == [response];
    }
  }

  lemma AdvanceKeepsWrites(s: Session)
    requires s.items != [] && WriteInv(s.(inFlight := [s.items[0]])) && s.inFlight == [] && !s.items[0].close
    ensures WriteInv(Advance(s))
  {
    assert s.items == [s.items[0]] + s.items[1..];
    assert s.sent + s.items == s.sent + [s.items[0]] + s.items[1..];
  }

  lemma WriteDoneStep(s: Session, i: nat, outcome: WriteResult)
    requires WriteInv(s) && i < |s.inFlight|
    ensures s.items != [] && WriteInv(OnWrite(s, i, outcome))
  {
    var r := s.(inFlight := s.inFlight[..i] + s.inFlight[i + 1..]);
    assert r.inFlight == [] && s.inFlight == [s.items[0]];
    if outcome.Written? && !s.inFlight[0].close {
      assert r.(inFlight := [s.items[0]]) == s;
      AdvanceKeepsWrites(r);
    }
  }

  /** In particular the assertion in `queue::on_write` never fails. */
  lemma WriteStep(s: Session, e: Event)
    requires WriteInv(s) && Possible(s, e)
    ensures e.WriteDone? ==> s.items != []
    ensures WriteInv(Next(s, e))
  {
    match e
    case ReadDone(result) =>
      if result.ReadReplied? {
        var r := s.(openReads := s.openReads - 1, requests := s.requests + 1);
        PushKeepsWrites(r, Response(s.requests, result.close));
      }
    case WriteDone(i, outcome) => WriteDoneStep(s, i, outcome);
    case LateReply(i, close) =>
      PushKeepsWrites(s.(waiting := s.waiting[..i] + s.waiting[i + 1..]), Response(s.waiting[i], close));
  }

  lemma {:induction false} RunWrites(states: seq<Session>, events: seq<Event>, n: nat)
    requires Run(states, events) && n < |states|
    ensures WriteInv(states[n])
  {
    if n > 0 {
      RunWrites(states, events, n - 1);
      WriteStep(states[n - 1], events[n - 1]);
    }
  }

  /** In every run, whenever handlers reply and operations complete: one write at
      most, responses leave in the order they were handed over, nothing is written
      after a closing response. */
  lemma PipelineWrites(states: seq<Session>, events: seq<Event>, n: nat)
    requires Run(states, events) && n < |states|
    ensures |states[n].inFlight| <= 1
    ensures !states[n].over ==> (|states[n].inFlight| == 1 <==> states[n].items != [])
    ensures states[n].started <= states[n].pushed
    ensures forall i :: 0 <= i < |states[n].started| - 1 ==> !states[n].started[i].close
  {
    RunWrites(states, events, n);
    var s := states[n];
    if s.items != [] {
      assert s.items == [s.items[0]] + s.items[1..];
      assert s.pushed == s.started + s.items[1..];
    } else {
      assert s.pushed == s.started;
    }
  }

  // ------------------------------------------------------------- the read side

  predicate RepliesAtOnce(e: Event) {
    match e
    case ReadDone(result) => !result.ReadDeferred?
    case WriteDone(_, _) => true
    case LateReply(_, _) => false
  }

  /** With handlers that reply before returning, exactly one read is outstanding
      while fewer than LIMIT responses are queued, none otherwise, and responses are
      those of the requests read, in request order. */
  ghost predicate ReadInv(s: Session) {
    && |s.items| <= LIMIT
    && s.waiting == [] && |s.pushed| == s.requests
    && (forall i :: 0 <= i < |s.pushed| ==> s.pushed[i].request == i)
    && s.openReads <= (if |s.items| < LIMIT then 1 else 0)
    && (!s.over ==> s.openReads == if |s.items| < LIMIT then 1 else 0)
  }

  lemma ReadStep(s: Session, e: Event)
    requires ReadInv(s) && WriteInv(s) && Possible(s, e) && RepliesAtOnce(e)
    requires e.WriteDone? ==> s.items != []
    ensures ReadInv(Next(s, e))
  {
  }

  /** Section 6.3.2 of RFC 7230 for handlers that reply before returning. */
  lemma {:induction false} PipelineReads(states: seq<Session>, events: seq<Event>, n: nat)
    requires Run(states, events) && n < |states|
    requires forall i :: 0 <= i < |events| ==> RepliesAtOnce(events[i])
    ensures ReadInv(states[n])
    ensures |states[n].items| <= 8
    ensures !states[n].over ==> states[n].openReads == if |states[n].items| < 8 then 1 else 0
    ensures forall i :: 0 <= i < |states[n].started| ==> states[n].started[i].request == i
  {
    if n > 0 {
      PipelineReads(states, events, n - 1);
      RunWrites(states, events, n - 1);
      ReadStep(states[n - 1], events[n - 1]);
    }
    PipelineWrites(states, events, n);
  }

  // ---------------------------------------------------------------- the session

  /** `http_session` with its queue, updated in place. */
  class HttpSession {
    var items: seq<Response>
    var openReads: nat
    var inFlight: seq<Response>
    var requests: nat
    var waiting: seq<nat>
    ghost var pushed: seq<Response>
    ghost var started: seq<Response>
    ghost var sent: seq<Response>
    ghost var over: bool

    ghost function View(): Session
      reads this
    {
      Session(items, openReads, inFlight, requests, waiting, pushed, started, sent, over)
    }

    /** What every callback finds and leaves behind. */
    ghost predicate Valid()
      reads this
    {
      WriteInv(View())
    }

    /** The constructor followed by `run`. */
    constructor ()
      ensures Valid() && View() == FRESH
    {
      items, openReads, inFlight, requests, waiting := [], 1, [], 0, [];
      pushed, started, sent, over := [], [], [], false;
    }

    method StartFront()
      requires items != []
      modifies this`inFlight, this`started
      ensures View() == StartWrite(old(View()))
    {
      inFlight := inFlight + [items[0]];
      started := started + [items[0]];
    }

    method Send(response: Response)
      requires Valid()
      modifies this`items, this`pushed, this`inFlight, this`started
      ensures Valid() && View() == Push(old(View()), response)
    {
      PushKeepsWrites(View(), response);
      items := items + [response];
      pushed := pushed + [response];
      if |items| == 1 {
        StartFront();
      }
    }

    /** `queue::on_write`, once the write of the front has completed; true if the
        caller should start a read. */
    method QueueOnWrite() returns (wasFull: bool)
      requires inFlight == [] && items != [] && !items[0].close
      requires WriteInv(View().(inFlight := [items[0]]))
      modifies this`items, this`sent, this`inFlight, this`started
      ensures Valid()
      ensures View() == Advance(old(View())) && wasFull == IsFull(old(items))
    {
      AdvanceKeepsWrites(View());
      wasFull := |items| >= LIMIT;
      sent := sent + [items[0]];
      items := items[1..];
      if items != [] {
        StartFront();
      }
    }

    /** `read`. */
    method StartRead()
      modifies this`openReads
      ensures View() == Read(old(View()))
    {
      openReads := openReads + 1;
    }

    /** A request whose handler replies before it returns, or later. */
    method Handle(result: ReadResult)
      requires Valid() && (result.ReadReplied? || result.ReadDeferred?)
      modifies this`items, this`pushed, this`inFlight, this`started, this`requests, this`waiting
      ensures Valid()
      ensures
        var s := old(View());
        View() == if result.ReadReplied? then Push(s.(requests := s.requests + 1), Response(s.requests, result.close))
                  else s.(requests := s.requests + 1, waiting := s.waiting + [s.requests])
    {
      var number := requests;
      requests := requests + 1;
      if result.ReadReplied? {
        Send(Response(number, result.close));
      } else {
        waiting := waiting + [number];
      }
    }

    method HandleRead(result: ReadResult)
      requires Valid() && openReads > 0
      modifies this
      ensures Valid() && View() == OnRead(old(View()), result)
    {
      openReads := openReads - 1;
      if result.ReadUpgrade? || result.ReadFailed? {
        over := true;
      } else {
        Handle(result);
        if |items| < LIMIT {
          StartRead();
        }
      }
    }

    method HandleWrite(i: nat, outcome: WriteResult)
      requires Valid() && i < |inFlight|
      modifies this
      ensures Valid() && View() == OnWrite(old(View()), i, outcome)
    {
      ghost var before := View();
      var close := inFlight[i].close;
      inFlight := inFlight[..i] + inFlight[i + 1..];
      if outcome.WriteFailed? || close {
        over := true;
      } else {
        assert inFlight == [] && View().(inFlight := [items[0]]) == before;
        var wasFull := QueueOnWrite();
        if wasFull {
          StartRead();
        }
      }
    }

    /** A reply with nothing in between its two halves. */
    method ReplyLater(i: nat, close: bool)
      requires Valid() && i < |waiting|
      modifies this
      ensures Valid() && View() == Next(old(View()), LateReply(i, close))
    {
      var number := waiting[i];
      waiting := waiting[..i] + waiting[i + 1..];
      Send(Response(number, close));
    }
  }
}
