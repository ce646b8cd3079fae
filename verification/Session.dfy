/** One client request as a state machine: each step is the completion of the one pending
    asynchronous operation. */
module Session {

  datatype Op =
    | Resolve | Connect | ProxyWrite | ProxyRead | Handshake
    | Write | ReadHead | ReadBody | ReadSize | ReadChunk(last: bool) | ReadToEnd
    | Idle

  /** How an operation completed. After a header: whether and how a body follows. After a chunk
      size: whether it was the last chunk, and whether bytes of the chunk are still missing. */
  datatype Outcome =
    | Error | Eof | Ok
    | Refused
    | LengthMissing | LengthHere | Chunks | ToEnd | NoBody
    | Size(last: bool, missing: bool)

  /** The connection's flags and socket, the pending operation, and what has happened; `success` tells
      whether the callback was called without an error. */
  datatype State = State(https: bool, proxy: bool, request: string,
                         open: bool, inUse: bool, reconnecting: bool,
                         pending: Op, writes: seq<string>, connects: nat, callbacks: nat, success: bool)

  /** The outcomes an operation can have. */
  predicate Possible(op: Op, o: Outcome) {
    match op
    case Idle => false
    case ProxyRead => o.Error? || o.Ok? || o.Refused?
    case ReadHead => o.Error? || o.LengthMissing? || o.LengthHere? || o.Chunks? || o.ToEnd? || o.NoBody?
    case ReadSize => o.Error? || o.Size?
    case ReadToEnd => o.Error? || o.Eof? || o.Ok?
    case _ => o.Error? || o.Ok?
  }

  /** What no step changes. */
  predicate SameSetup(s: State, r: State) {
    r.request == s.request && r.https == s.https && r.proxy == s.proxy
  }

  function Close(s: State): State { s.(open := false) }

  /** session->callback: frees the connection, then calls back. */
  function Callback(s: State, success: bool): State {
    s.(inUse := false, callbacks := s.callbacks + 1, pending := Idle, success := success)
  }

  function StartWrite(s: State): State { s.(pending := Write, writes := s.writes + [s.request]) }

  function StartConnect(s: State): State {
    var s' := s.(connects := s.connects + 1);
    if s.open then StartWrite(s') else s'.(pending := Resolve)
  }

  function Fail(s: State): State { Callback(Close(s), false) }

  function AfterChunk(s: State, last: bool): State {
    if last then Callback(s, true) else s.(pending := ReadSize)
  }

  /** Operations before the request is written on this connection attempt. */
  predicate Early(op: Op) {
    op.Resolve? || op.Connect? || op.ProxyWrite? || op.ProxyRead? || op.Handshake?
  }

  /** The operation that follows one of those that open the channel. */
  function Opening(op: Op, https: bool, proxy: bool): Op {
    match op
    case Resolve => Connect
    case Connect => if !https then Write else if proxy then ProxyWrite else Handshake
    case ProxyWrite => ProxyRead
    case ProxyRead => Handshake
    case _ => Write
  }

  function Opened(s: State, o: Outcome): State {
    var op := Opening(s.pending, s.https, s.proxy);
    if o.Error? || o.Refused? then Fail(s)
    else if op.Write? then StartWrite(s)
    else s.(pending := op, open := s.open || s.pending.Resolve?)
  }

  function HeadRead(s: State, o: Outcome): State {
    if o.Error? then
      if !s.reconnecting then StartConnect(Close(s.(reconnecting := true))) else Fail(s)
    else
      var s' := s.(reconnecting := false);
      if o.LengthMissing? then s'.(pending := ReadBody)
      else if o.Chunks? then s'.(pending := ReadSize)
      else if o.ToEnd? then s'.(pending := ReadToEnd)
      else Callback(s', true)
  }

  function BodyRead(s: State, o: Outcome): State {
    match s.pending
    case ReadBody => if o.Error? then Fail(s) else Callback(s, true)
    case ReadSize =>
      if !o.Size? then Fail(s)
      else if o.missing then s.(pending := ReadChunk(o.last))
      else AfterChunk(s, o.last)
    case ReadChunk(last) => if o.Error? then Fail(s) else AfterChunk(s, last)
    case _ => if o.Ok? then Callback(s, true) else Callback(Close(s), o.Eof?)
  }

  function Step(s: State, o: Outcome): State {
    match s.pending
    case Idle => s
    case Write => if o.Error? then Fail(s) else s.(pending := ReadHead)
    case ReadHead => HeadRead(s, o)
    case _ => if Early(s.pending) then Opened(s, o) else BodyRead(s, o)
  }

  /** The session `request` starts on a connection that get_connection handed out. */
  function Start(https: bool, proxy: bool, request: string, open: bool): State {
    StartConnect(State(https, proxy, request, open, true, false, Idle, [], 0, 0, false))
  }

  function Run(s: State, os: seq<Outcome>): State
    decreases |os|
  {
    if os == [] then s else Run(Step(s, os[0]), os[1..])
  }

  predicate Feasible(s: State, os: seq<Outcome>)
    decreases |os|
  {
    os == [] || (Possible(s.pending, os[0]) && Feasible(Step(s, os[0]), os[1..]))
  }

  // ---- Safety ----

  predicate SameWrites(writes: seq<string>, request: string) {
    forall i | 0 <= i < |writes| :: writes[i] == request
  }

  predicate Inv(s: State) {
    && SameWrites(s.writes, s.request)
    && s.callbacks <= 1
    && (s.pending.Idle? <==> s.callbacks == 1)
    && (s.inUse <==> s.callbacks == 0)
    && 1 <= s.connects <= 2
    && |s.writes| <= s.connects
    && (Early(s.pending) ==> |s.writes| == s.connects - 1)
    && (s.pending.Write? || s.pending.ReadHead? ==> |s.writes| == s.connects)
    && ((Early(s.pending) || s.pending.Write? || s.pending.ReadHead?) ==> (s.connects == 1 <==> !s.reconnecting))
    && (s.pending.ProxyWrite? || s.pending.ProxyRead? ==> s.https && s.proxy)
    && (s.pending.Handshake? ==> s.https)
    && (s.pending.Resolve? ==> !s.open)
    && (!s.pending.Resolve? && !s.pending.Idle? ==> s.open)
  }

  lemma WriteAgain(writes: seq<string>, request: string)
    requires SameWrites(writes, request)
    ensures SameWrites(writes + [request], request)
  {}

  lemma StepKeeps(s: State, o: Outcome)
    requires Inv(s) && Possible(s.pending, o)
    ensures Inv(Step(s, o))
  {
    assert !s.pending.Idle?;
    hide Inv, Step, Possible;
    if Early(s.pending) {
      EarlyStepKeeps(s, o);
    } else if s.pending.Write? || s.pending.ReadHead? {
      HeadStepKeeps(s, o);
    } else {
      BodyStepKeeps(s, o);
    }
  }

  lemma EarlyStepKeeps(s: State, o: Outcome)
    requires Inv(s) && Possible(s.pending, o) && Early(s.pending)
    ensures Inv(Step(s, o))
  {
    WriteAgain(s.writes, s.request);
    hide SameWrites;
  }

  lemma HeadStepKeeps(s: State, o: Outcome)
    requires Inv(s) && Possible(s.pending, o) && (s.pending.Write? || s.pending.ReadHead?)
    ensures Inv(Step(s, o))
  {
    WriteAgain(s.writes, s.request);
    hide SameWrites;
  }

  lemma BodyStepKeeps(s: State, o: Outcome)
    requires Inv(s) && Possible(s.pending, o) && Receiving(s.pending)
    ensures Inv(Step(s, o))
  {
    hide SameWrites, Inv, Opened, HeadRead;
    BodySteps(s, o);
    hide BodyRead, Close, Callback, After;
    EndKeeps(s, Ends(s.pending, o));
    if !After(s.pending, o).Idle? { PendingKeeps(s, After(s.pending, o)); }
  }

  predicate Receiving(op: Op) { op.ReadBody? || op.ReadSize? || op.ReadChunk? || op.ReadToEnd? }

  predicate Failed(o: Outcome) { o.Error? || o.Eof? || o.Refused? }

  /** The read that follows one of the body's reads, or Idle. */
  function After(op: Op, o: Outcome): Op {
    match op
    case ReadSize =>
      if !o.Size? then Idle else if o.missing then ReadChunk(o.last) else if o.last then Idle else ReadSize
    case ReadChunk(last) => if o == Ok && !last then ReadSize else Idle
    case _ => Idle
  }

  /** The outcome completes the body. */
  predicate Ends(op: Op, o: Outcome) {
    match op
    case ReadBody => o == Ok
    case ReadToEnd => o == Ok || o == Eof
    case ReadSize => o.Size? && o.last && !o.missing
    case ReadChunk(last) => o == Ok && last
    case _ => false
  }

  /** After a header, a step waits for the next read or ends the session. */
  lemma BodySteps(s: State, o: Outcome)
    requires Receiving(s.pending) && Possible(s.pending, o)
    ensures var op := After(s.pending, o);
            BodyRead(s, o) == if op.Idle? then Callback(if Failed(o) then Close(s) else s, Ends(s.pending, o))
                              else s.(pending := op)
    ensures After(s.pending, o).Idle? || Receiving(After(s.pending, o))
  {
    hide Close, Callback;
  }

  lemma EndKeeps(s: State, success: bool)
    requires Inv(s) && !s.pending.Idle?
    ensures Inv(Callback(s, success)) && Inv(Callback(Close(s), success))
  {
    hide SameWrites;
  }

  lemma PendingKeeps(s: State, op: Op)
    requires Inv(s) && Receiving(s.pending) && Receiving(op)
    ensures Inv(s.(pending := op))
  {
    hide SameWrites;
  }

  lemma {:induction false} RunKeeps(s: State, os: seq<Outcome>)
    requires Inv(s) && Feasible(s, os)
    ensures Inv(Run(s, os))
    decreases |os|
  {
    if os != [] {
      StepKeeps(s, os[0]);
      RunKeeps(Step(s, os[0]), os[1..]);
    }
  }

  /** For every sequence of outcomes, over HTTP or HTTPS, with or without a proxy, on a fresh or a
      reused connection: the callback has fired at most once, and has fired exactly when no operation
      is pending and exactly when the connection is free; there was at most one reconnect, and at
      most two writes, both of the same request. */
  lemma SessionSafety(https: bool, proxy: bool, request: string, open: bool, os: seq<Outcome>)
    requires Feasible(Start(https, proxy, request, open), os)
    ensures var s := Run(Start(https, proxy, request, open), os);
            && s.callbacks <= 1
            && (s.callbacks == 1 <==> s.pending.Idle?)
            && (s.callbacks == 1 <==> !s.inUse)
            && s.connects <= 2
            && |s.writes| <= 2
            && (forall i | 0 <= i < |s.writes| :: s.writes[i] == request)
  {
    RunKeeps(Start(https, proxy, request, open), os);
    SetupKept(Start(https, proxy, request, open), os);
  }

  /** What a step may do, to a state and its outcome. */
  predicate Orderly(s: State, o: Outcome, s': State) {
    && (|s'.writes| > |s.writes| ==> o == Ok && if s.https then s.pending.Handshake? else s.pending.Connect?)
    && (s'.pending.Handshake? ==> o == Ok && if s.proxy then s.pending.ProxyRead? else s.pending.Connect?)
    && (s'.connects > s.connects ==> s.pending.ReadHead? && Failed(o) && s'.pending.Resolve? && !s'.open)
    && (s'.callbacks == 1 ==> (s'.open <==> !Failed(o)))
    && (s.pending.Write? && o == Ok ==> s'.pending.ReadHead?)
    && (s.pending.ReadHead? && !Failed(o) ==> !s'.reconnecting)
    && (Failed(o) ==> if s.pending.ReadHead? && s.connects == 1 then s'.connects == 2 && s'.callbacks == 0
                      else s'.callbacks == 1 && (s'.success <==> s.pending.ReadToEnd? && o == Eof))
  }

  /** At every point of a session: the request goes out only on a channel that is ready, which over
      HTTPS means after a handshake; a handshake starts on a fresh connection, through a proxy only
      once the proxy has agreed; a write that succeeded is followed by the read of a header; a reconnect
      starts over from a closed socket, because the header could not be read the first time; any other
      failure ends in a callback with an error, except the end of a body that only the end delimits;
      and when the callback fires the socket is left open iff the last operation succeeded. */
  lemma ChannelOrder(https: bool, proxy: bool, request: string, open: bool, os: seq<Outcome>, o: Outcome)
    requires Feasible(Start(https, proxy, request, open), os)
    requires Possible(Run(Start(https, proxy, request, open), os).pending, o)
    ensures var s := Run(Start(https, proxy, request, open), os);
            s.https == https && s.proxy == proxy && Orderly(s, o, Step(s, o))
  {
    hide Run, Feasible, Possible, Orderly;
    RunKeeps(Start(https, proxy, request, open), os);
    SetupKept(Start(https, proxy, request, open), os);
    StepOrderly(Run(Start(https, proxy, request, open), os), o);
  }

  lemma StepOrderly(s: State, o: Outcome)
    requires Inv(s) && Possible(s.pending, o)
    ensures Orderly(s, o, Step(s, o))
  {
    assert !s.pending.Idle?;
    hide Inv, Possible, Orderly, Opened, HeadRead, BodyRead;
    if Early(s.pending) {
      OpenedOrderly(s, o);
    } else if s.pending.Write? {
      WriteOrderly(s, o);
    } else if s.pending.ReadHead? {
      HeadOrderly(s, o);
    } else {
      BodyOrderly(s, o);
    }
  }

  lemma OpenedOrderly(s: State, o: Outcome)
    requires Inv(s) && Possible(s.pending, o) && Early(s.pending)
    ensures Orderly(s, o, Opened(s, o))
  {
    hide SameWrites;
  }

  lemma WriteOrderly(s: State, o: Outcome)
    requires Inv(s) && Possible(s.pending, o) && s.pending.Write?
    ensures Orderly(s, o, Step(s, o))
  {
    hide SameWrites, Opened, HeadRead, BodyRead;
  }

  lemma HeadOrderly(s: State, o: Outcome)
    requires Inv(s) && Possible(s.pending, o) && s.pending.ReadHead?
    ensures Orderly(s, o, HeadRead(s, o))
  {
    hide SameWrites;
  }

  lemma BodyOrderly(s: State, o: Outcome)
    requires Inv(s) && Possible(s.pending, o) && Receiving(s.pending)
    ensures Orderly(s, o, BodyRead(s, o))
  {
    BodySteps(s, o);
    hide SameWrites, BodyRead;
  }

  lemma {:induction false} SetupKept(s: State, os: seq<Outcome>)
    requires Feasible(s, os)
    ensures SameSetup(s, Run(s, os))
    decreases |os|
  {
    if os != [] {
      StepSetup(s, os[0]);
      hide Step, Possible;
      SetupKept(Step(s, os[0]), os[1..]);
    }
  }

  lemma StepSetup(s: State, o: Outcome)
    requires Possible(s.pending, o)
    ensures SameSetup(s, Step(s, o))
  {
    hide SameSetup, Opened, HeadRead, BodyRead;
    OpenedSetup(s, o);
    HeadSetup(s, o);
    if Receiving(s.pending) { BodySetup(s, o); }
    SetupPlain(s);
  }

  lemma SetupPlain(s: State)
    ensures SameSetup(s, Fail(s)) && SameSetup(s, s.(pending := ReadHead))
  {}

  lemma OpenedSetup(s: State, o: Outcome)
    ensures SameSetup(s, Opened(s, o))
  {}

  lemma HeadSetup(s: State, o: Outcome)
    ensures SameSetup(s, HeadRead(s, o))
  {}

  lemma BodySetup(s: State, o: Outcome)
    requires Receiving(s.pending) && Possible(s.pending, o)
    ensures SameSetup(s, BodyRead(s, o))
  {
    BodySteps(s, o);
    hide BodyRead, After, Ends, Possible;
  }

  // ---- When everything succeeds ----

  /** The operations of a session up to the header. */
  function Operations(https: bool, proxy: bool, open: bool): seq<Op> {
    (if open then [] else [Resolve, Connect] + Secured(https, proxy)) + [Write, ReadHead]
  }

  function Secured(https: bool, proxy: bool): seq<Op> {
    if !https then [] else if proxy then [ProxyWrite, ProxyRead, Handshake] else [Handshake]
  }

  function Oks(n: nat): (os: seq<Outcome>)
    ensures |os| == n && forall i | 0 <= i < n :: os[i] == Ok
  {
    if n == 0 then [] else Oks(n - 1) + [Ok]
  }

  lemma {:induction false} RunMore(s: State, os: seq<Outcome>, o: Outcome)
    ensures Run(s, os + [o]) == Step(Run(s, os), o)
    decreases |os|
  {
    if os == [] {
      assert ([] + [o])[1..] == [];
    } else {
      hide Step;
      RunMore(Step(s, os[0]), os[1..], o);
      assert (os + [o])[1..] == os[1..] + [o];
    }
  }

  /** While everything succeeds, the operations follow one another in this order: an open connection is
      written to at once, a closed one is opened first. */
  lemma {:induction false} OperationsInOrder(https: bool, proxy: bool, request: string, open: bool, i: nat)
    requires i < |Operations(https, proxy, open)|
    ensures var s := Start(https, proxy, request, open);
            Feasible(s, Oks(i)) && Run(s, Oks(i)).pending == Operations(https, proxy, open)[i]
  {
    if i > 0 {
      hide Feasible, Run;
      var s0 := Start(https, proxy, request, open);
      OperationsInOrder(https, proxy, request, open, i - 1);
      SetupKept(s0, Oks(i - 1));
      RunMore(s0, Oks(i - 1), Ok);
      FeasibleMore(s0, Oks(i - 1), Ok);
      NextInOrder(Run(s0, Oks(i - 1)), open, i);
    }
  }

  lemma NextInOrder(s: State, open: bool, i: nat)
    requires 0 < i < |Operations(s.https, s.proxy, open)| && s.pending == Operations(s.https, s.proxy, open)[i - 1]
    ensures Step(s, Ok).pending == Operations(s.https, s.proxy, open)[i]
  {
    hide HeadRead, BodyRead;
  }

  // ---- What a successful callback means ----

  /** Sizes, each followed by the bytes its chunk still missed, up to the last chunk. */
  predicate ChunkReads(os: seq<Outcome>)
    decreases |os|
  {
    && os != [] && os[0].Size? && (os[0].missing ==> |os| > 1 && os[1] == Ok)
    && var rest := os[if os[0].missing then 2 else 1..];
    if os[0].last then rest == [] else ChunkReads(rest)
  }

  /** The reads that follow a header, for the body it announced. */
  predicate BodyDone(head: Outcome, os: seq<Outcome>) {
    match head
    case LengthMissing => os == [Ok]
    case LengthHere => os == []
    case NoBody => os == []
    case Chunks => ChunkReads(os)
    case ToEnd => os == [Ok] || os == [Eof]
    case _ => false
  }

  /** The write that completed at `w` was answered: a header was read next, then all of its body, and
      nothing more. */
  predicate AnsweredAt(s: State, os: seq<Outcome>, w: nat) {
    w + 1 < |os| && Run(s, os[..w]).pending.Write? && os[w] == Ok && BodyDone(os[w + 1], os[w + 2..])
  }

  predicate Succeeded(s: State) { s.callbacks == 1 && s.success }

  /** What the pending read and the ones after it still owe. */
  predicate Owed(op: Op, os: seq<Outcome>) {
    match op
    case ReadBody => os == [Ok]
    case ReadToEnd => os == [Ok] || os == [Eof]
    case ReadSize => ChunkReads(os)
    case ReadChunk(last) => os != [] && os[0] == Ok && if last then os[1..] == [] else ChunkReads(os[1..])
    case _ => false
  }

  lemma ReceivedStep(s: State, o: Outcome)
    requires Receiving(s.pending) && Possible(s.pending, o) && s.callbacks == 0
    ensures var (s', op) := (Step(s, o), After(s.pending, o));
            && s'.pending == op && (op.Idle? || Receiving(op))
            && if op.Idle? then Succeeded(s') <==> Ends(s.pending, o) else s'.callbacks == 0
  {
    hide Opened, HeadRead, BodyRead;
    BodySteps(s, o);
    hide After, Ends, Possible;
  }

  lemma OwedStep(op: Op, os: seq<Outcome>)
    requires Receiving(op) && os != [] && Possible(op, os[0])
    ensures var op' := After(op, os[0]);
            if op'.Idle? then Owed(op, os) <==> Ends(op, os[0]) && os[1..] == []
            else Owed(op, os) <==> Owed(op', os[1..])
  {
    match op
    case ReadSize => if os[0].Size? && os[0].missing && |os| > 1 { assert os[1..][1..] == os[2..]; }
    case _ =>
  }

  lemma IdleStops(s: State, os: seq<Outcome>)
    requires s.pending.Idle? && Feasible(s, os)
    ensures os == []
  {}

  lemma RunCut(s: State, os: seq<Outcome>, w: nat)
    requires 0 < w <= |os|
    ensures Run(s, os[..w]) == Run(Step(s, os[0]), os[1..][..w - 1])
  {
    assert os[..w][1..] == os[1..][..w - 1];
  }

  /** From a body's read on: the callback reports success iff all it owed was read, and nothing more; and
      nothing is written. */
  lemma {:induction false} BodyRun(s: State, os: seq<Outcome>)
    requires Receiving(s.pending) && s.callbacks == 0 && Feasible(s, os)
    ensures Succeeded(Run(s, os)) <==> Owed(s.pending, os)
    ensures forall w | 0 <= w < |os| :: !Run(s, os[..w]).pending.Write?
    decreases |os|
  {
    if os != [] {
      hide Step, Owed, Possible, After, Ends;
      ReceivedStep(s, os[0]);
      OwedStep(s.pending, os);
      var s', rest := Step(s, os[0]), os[1..];
      if s'.pending.Idle? {
        IdleStops(s', rest);
      } else {
        BodyRun(s', rest);
      }
      forall w | 0 <= w < |os| ensures !Run(s, os[..w]).pending.Write? {
        if w > 0 { RunCut(s, os, w); }
      }
    }
  }

  predicate Answered(s: State, os: seq<Outcome>) { exists w | 0 <= w < |os| :: AnsweredAt(s, os, w) }

  lemma AnsweredLater(s: State, os: seq<Outcome>)
    requires os != []
    ensures Answered(s, os) <==> AnsweredAt(s, os, 0) || Answered(Step(s, os[0]), os[1..])
  {
    hide Step, BodyDone;
    forall w | 0 < w < |os|
      ensures AnsweredAt(s, os, w) <==> AnsweredAt(Step(s, os[0]), os[1..], w - 1)
    {
      RunCut(s, os, w);
      assert w + 1 < |os| ==> os[1..][w..] == os[w + 1..] && os[1..][w + 1..] == os[w + 2..];
    }
    hide AnsweredAt;
    if w :| 0 <= w < |os| && AnsweredAt(s, os, w) {
      assert w > 0 ==> AnsweredAt(Step(s, os[0]), os[1..], w - 1);
    }
    if w :| 0 <= w < |os[1..]| && AnsweredAt(Step(s, os[0]), os[1..], w) {
      assert AnsweredAt(s, os, w + 1);
    }
  }

  /** A header that was read leaves the body's reads to come, or nothing. */
  lemma HeadStep(s: State, o: Outcome, rest: seq<Outcome>)
    requires s.pending.ReadHead? && Possible(s.pending, o) && s.callbacks == 0
    ensures var s' := Step(s, o);
            if o.Error? then
              && !BodyDone(o, rest)
              && if s'.pending.Idle? then !Succeeded(s') else s'.pending.Resolve? && s'.callbacks == 0
            else if s'.pending.Idle? then Succeeded(s') && (BodyDone(o, rest) <==> rest == [])
            else Receiving(s'.pending) && s'.callbacks == 0 && (BodyDone(o, rest) <==> Owed(s'.pending, rest))
  {
    hide Opened, BodyRead, ChunkReads;
  }

  /** A step that opens the channel. */
  lemma OpeningStep(s: State, o: Outcome)
    requires Early(s.pending) && Possible(s.pending, o) && s.callbacks == 0
    ensures var s' := Opened(s, o);
            if s'.pending.Idle? then !Succeeded(s')
            else s'.callbacks == 0 && (Early(s'.pending) || s'.pending.Write?)
  {}

  /** A step before the header. */
  lemma ChannelStep(s: State, o: Outcome)
    requires (Early(s.pending) || s.pending.Write?) && Possible(s.pending, o) && s.callbacks == 0
    ensures var s' := Step(s, o);
            if s'.pending.Idle? then !Succeeded(s') && (s.pending.Write? ==> o != Ok)
            else s'.callbacks == 0 && if s.pending.Write? then o == Ok && s'.pending.ReadHead?
                                      else Early(s'.pending) || s'.pending.Write?
  {
    hide HeadRead, BodyRead, Opened;
    if Early(s.pending) { OpeningStep(s, o); }
  }

  lemma {:induction false} SuccessRun(s: State, os: seq<Outcome>)
    requires (Early(s.pending) || s.pending.Write? || s.pending.ReadHead?) && s.callbacks == 0 && Feasible(s, os)
    ensures Succeeded(Run(s, os)) <==>
            Answered(s, os) || (s.pending.ReadHead? && os != [] && BodyDone(os[0], os[1..]))
    decreases |os|
  {
    if os != [] {
      hide Step, Possible, BodyDone, Answered, Owed, Succeeded;
      var s', rest := Step(s, os[0]), os[1..];
      AnsweredLater(s, os);
      if s.pending.ReadHead? {
        HeadStep(s, os[0], rest);
      } else {
        ChannelStep(s, os[0]);
      }
      if s'.pending.Idle? {
        IdleStops(s', rest);
      } else if Receiving(s'.pending) {
        BodyRun(s', rest);
        NotAnswered(s', rest);
      } else {
        SuccessRun(s', rest);
      }
    }
  }

  lemma NotAnswered(s: State, os: seq<Outcome>)
    requires forall w | 0 <= w < |os| :: !Run(s, os[..w]).pending.Write?
    ensures !Answered(s, os)
  {}

  /** The callback reports success iff some write of the request succeeded and was answered: right after
      it a header was read, and after the header the body it announced. Missing bytes of a length are one
      read that succeeded; chunks are read size by size, with the bytes each one missed, up to the last;
      a body up to the end is read to the end; and where nothing is missing nothing more is read. */
  lemma SuccessMeans(https: bool, proxy: bool, request: string, open: bool, os: seq<Outcome>)
    requires Feasible(Start(https, proxy, request, open), os)
    ensures Succeeded(Run(Start(https, proxy, request, open), os)) <==> Answered(Start(https, proxy, request, open), os)
  {
    hide Run, Feasible, Answered;
    SuccessRun(Start(https, proxy, request, open), os);
  }

  // ---- Progress ----

  /** How many more steps a session can take, apart from chunks. */
  function Rank(s: State): nat {
    var late := if s.reconnecting then 0 else 7;
    match s.pending
    case Idle => 0
    case ReadBody => 1
    case ReadToEnd => 1
    case ReadChunk(last) => if last then 1 else 3
    case ReadSize => 2
    case ReadHead => 3 + late
    case Write => 4 + late
    case Handshake => 5 + late
    case ProxyRead => 6 + late
    case ProxyWrite => 7 + late
    case Connect => 8 + late
    case Resolve => 9 + late
  }

  /** The chunk sizes other than the last among the outcomes. */
  function ChunksIn(os: seq<Outcome>): nat {
    if os == [] then 0 else (if os[0].Size? && !os[0].last then 1 else 0) + ChunksIn(os[1..])
  }

  predicate Ranks(s: State, o: Outcome) {
    Rank(Step(s, o)) + 1 <= Rank(s) + 2 * (if o.Size? && !o.last then 1 else 0)
  }

  lemma StepRanks(s: State, o: Outcome)
    requires Inv(s) && Possible(s.pending, o)
    ensures Ranks(s, o)
  {
    assert !s.pending.Idle?;
    hide Inv, Ranks, Possible;
    if Early(s.pending) {
      EarlyRanks(s, o);
    } else if s.pending.Write? || s.pending.ReadHead? {
      HeadRanks(s, o);
    } else {
      BodyRanks(s, o);
    }
  }

  lemma EarlyRanks(s: State, o: Outcome)
    requires Early(s.pending) && Possible(s.pending, o)
    ensures Ranks(s, o)
  {
    hide HeadRead, BodyRead, Opened;
    OpenedLeaves(s, o);
  }

  lemma OpenedLeaves(s: State, o: Outcome)
    ensures var s' := Opened(s, o);
            && s'.reconnecting == s.reconnecting
            && s'.pending == if o.Error? || o.Refused? then Idle else Opening(s.pending, s.https, s.proxy)
  {
    hide Opening;
  }

  lemma HeadRanks(s: State, o: Outcome)
    requires (s.pending.Write? || s.pending.ReadHead?) && Possible(s.pending, o)
    ensures Ranks(s, o)
  {}

  lemma BodyRanks(s: State, o: Outcome)
    requires Receiving(s.pending) && Possible(s.pending, o)
    ensures Ranks(s, o)
  {
    hide Opened, HeadRead;
    BodySteps(s, o);
    hide BodyRead;
  }

  lemma {:induction false} RunRanks(s: State, os: seq<Outcome>)
    requires Inv(s) && Feasible(s, os)
    ensures Rank(Run(s, os)) + |os| <= Rank(s) + 2 * ChunksIn(os)
    decreases |os|
  {
    if os != [] {
      StepKeeps(s, os[0]);
      StepRanks(s, os[0]);
      RunRanks(Step(s, os[0]), os[1..]);
    }
  }

  /** Every session ends: it takes at most 16 steps and two more per chunk, an operation is pending
      until the callback fires, and whatever is pending can complete. */
  lemma SessionProgress(https: bool, proxy: bool, request: string, open: bool, os: seq<Outcome>)
    requires Feasible(Start(https, proxy, request, open), os)
    ensures |os| <= 16 + 2 * ChunksIn(os)
    ensures var s := Run(Start(https, proxy, request, open), os);
            s.callbacks == 0 ==> Feasible(Start(https, proxy, request, open), os + [Error])
  {
    var s0 := Start(https, proxy, request, open);
    RunKeeps(s0, os);
    RunRanks(s0, os);
    if Run(s0, os).callbacks == 0 {
      FeasibleMore(s0, os, Error);
    }
  }

  lemma {:induction false} FeasibleMore(s: State, os: seq<Outcome>, o: Outcome)
    requires Feasible(s, os) && Possible(Run(s, os).pending, o)
    ensures Feasible(s, os + [o])
    decreases |os|
  {
    if os == [] {
      assert Feasible(Step(s, o), []);
      assert ([] + [o])[1..] == [];
    } else {
      FeasibleMore(Step(s, os[0]), os[1..], o);
      assert (os + [o])[1..] == os[1..] + [o];
    }
  }

  // ---- The handlers ----

  /** A session and its connection; each handler runs when the pending operation completes. */
  class ClientSession {
    const https: bool
    const proxy: bool
    const request: string
    var open: bool
    var inUse: bool
    var reconnecting: bool
    var pending: Op
    var writes: seq<string>
    ghost var connects: nat
    var callbacks: nat
    var success: bool

    ghost function Abs(): State
      reads this
    {
      State(https, proxy, request, open, inUse, reconnecting, pending, writes, connects, callbacks, success)
    }

    constructor (https: bool, proxy: bool, request: string, open: bool)
      ensures Abs() == Start(https, proxy, request, open)
    {
      this.https, this.proxy, this.request, this.open := https, proxy, request, open;
      inUse, reconnecting, pending := true, false, Idle;
      writes, connects, callbacks, success := [], 0, 0, false;
      new;
      DoConnect();
    }

    method DoClose()
      modifies `open
      ensures Abs() == Close(old(Abs()))
    {
      open := false;
    }

    method DoCallback(noError: bool)
      modifies `inUse, `callbacks, `pending, `success
      ensures Abs() == Callback(old(Abs()), noError)
    {
      inUse := false;
      callbacks := callbacks + 1;
      pending := Idle;
      success := noError;
    }

    method DoFail()
      modifies `open, `inUse, `callbacks, `pending, `success
      ensures Abs() == Fail(old(Abs()))
    {
      DoClose();
      DoCallback(false);
    }

    method DoWrite()
      modifies `writes, `pending
      ensures Abs() == StartWrite(old(Abs()))
    {
      writes := writes + [request];
      pending := Write;
    }

    method DoConnect()
      modifies `connects, `writes, `pending
      ensures Abs() == StartConnect(old(Abs()))
    {
      connects := connects + 1;
      if !open {
        pending := Resolve;
      } else {
        DoWrite();
      }
    }

    method OnConnect(o: Outcome)
      requires pending.Connect? && Possible(pending, o)
      modifies this
      ensures Abs() == Step(old(Abs()), o)
    {
      if o.Error? {
        DoFail();
      } else if !https {
        DoWrite();
      } else if proxy {
        pending := ProxyWrite;
      } else {
        pending := Handshake;
      }
    }

    method OnHead(o: Outcome)
      requires pending.ReadHead?
      modifies this
      ensures Abs() == Step(old(Abs()), o)
    {
      if !o.Error? {
        reconnecting := false;
        if o.LengthMissing? {
          pending := ReadBody;
        } else if o.Chunks? {
          pending := ReadSize;
        } else if o.ToEnd? {
          pending := ReadToEnd;
        } else {
          DoCallback(true);
        }
      } else if !reconnecting {
        reconnecting := true;
        DoClose();
        DoConnect();
      } else {
        DoFail();
      }
    }

    method ProcessChunk(last: bool)
      modifies `inUse, `callbacks, `pending, `success
      ensures Abs() == AfterChunk(old(Abs()), last)
    {
      if last {
        DoCallback(true);
      } else {
        pending := ReadSize;
      }
    }

    method OnBody(o: Outcome)
      requires pending.ReadBody? || pending.ReadSize? || pending.ReadChunk? || pending.ReadToEnd?
      modifies this
      ensures Abs() == Step(old(Abs()), o)
    {
      match pending {
        case ReadBody =>
          if o.Error? { DoFail(); } else { DoCallback(true); }
        case ReadSize =>
          if !o.Size? { DoFail(); }
          else if o.missing { pending := ReadChunk(o.last); }
          else { ProcessChunk(o.last); }
        case ReadChunk(last) =>
          if o.Error? { DoFail(); } else { ProcessChunk(last); }
        case ReadToEnd =>
          if o.Ok? {
            DoCallback(true);
          } else {
            DoClose();
            DoCallback(o.Eof?);
          }
      }
    }

    /** The pending operation completes. */
    method Complete(o: Outcome)
      requires Inv(Abs()) && Possible(pending, o)
      modifies this
      ensures Abs() == Step(old(Abs()), o) && Inv(Abs())
    {
      hide Inv, HeadRead, BodyRead, SameWrites;
      StepKeeps(Abs(), o);
      match pending {
        case Resolve =>
          if o.Error? { DoFail(); } else { open, pending := true, Connect; }
        case Connect => OnConnect(o);
        case ProxyWrite =>
          if o.Error? { DoFail(); } else { pending := ProxyRead; }
        case ProxyRead =>
          if o.Ok? { pending := Handshake; } else { DoFail(); }
        case Handshake =>
          if o.Error? { DoFail(); } else { DoWrite(); }
        case Write =>
          if o.Error? { DoFail(); } else { pending := ReadHead; }
        case ReadHead => OnHead(o);
        case Idle => assert false;
        case _ => OnBody(o);
      }
    }
  }
}
