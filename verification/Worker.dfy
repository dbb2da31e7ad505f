/** The worker's poll loop: an asyncio task that others may notify, stop or cancel at every await. */
module Worker {
  import opened Options
  import opened Schema
  import Statements

  /** The ids of one claimed batch. */
  type Ids = seq<Id>

  const NOTIFY_RETRIES := 10

  /** Where the task stands: at the top of the loop, at one of its awaits, or at its end. */
  datatype Pc =
    | Top
    | Fetching
    | Handling(ids: Ids)
    | Settling(ids: Ids, report: Report)
    | Idling(full: bool)
    | Stopped
    | Crashed
    | Cancelled

  /** What is to become of a batch: completed or failed, with the JSON of its output. */
  datatype Report = Completed(output: Payload) | Failed(output: Payload)

  datatype Loop = Loop(pc: Pc, wake: bool, stopping: bool, fast: nat)

  const START := Loop(Top, false, false, 0)

  /** How a handler ends: it returns something that is no mapping, or a mapping, with its JSON if JSON can encode it; or
      it raises an Exception, with the JSON of its text and type if the text can be formed, or anything else, such as
      SystemExit. */
  datatype Ending =
    | ReturnedValue
    | ReturnedMapping(json: Option<string>)
    | RaisedException(json: Option<string>)
    | RaisedOther

  /** What a statement in flight has done, or will yet do, in the table when its await is cut short. */
  datatype Done = Nothing | ClaimedRows(ids: Ids) | SettledRows

  /** What can happen: calls from outside, the loop test, and how each await ends. A fetch that raises an Exception may
      have claimed rows all the same, and a settlement that raises one may have committed; `Abort` is a database call
      that raises anything else. */
  datatype Act =
    | Notify
    | RequestStop
    | CancelTask(done: Done)
    | Begin
    | Exit
    | FetchFailed(lost: Ids)
    | FetchEmpty
    | FetchRows(ids: Ids)
    | HandlerEnded(ending: Ending)
    | Settle(committed: bool)
    | Abort(done: Done)
    | Woken
    | TimedOut

  predicate Ended(pc: Pc) { pc.Stopped? || pc.Crashed? || pc.Cancelled? }

  /** Only a fetch in flight can claim, and only a settlement in flight can settle. */
  predicate CanHaveDone(pc: Pc, done: Done) {
    match done
    case Nothing => true
    case ClaimedRows(ids) => pc.Fetching? && ids != []
    case SettledRows => pc.Settling?
  }

  predicate Enabled(w: Loop, a: Act) {
    match a
    case Notify => true
    case RequestStop => true
    case CancelTask(done) => !Ended(w.pc) && CanHaveDone(w.pc, done)
    case Begin => w.pc.Top? && !w.stopping
    case Exit => w.pc.Top? && w.stopping
    case FetchFailed(_) => w.pc.Fetching?
    case FetchEmpty => w.pc.Fetching?
    case FetchRows(ids) => w.pc.Fetching? && ids != []
    case HandlerEnded(_) => w.pc.Handling?
    case Settle(_) => w.pc.Settling?
    case Abort(done) => (w.pc.Fetching? || w.pc.Settling?) && CanHaveDone(w.pc, done)
    case Woken => w.pc.Idling? && w.wake
    case TimedOut => w.pc.Idling? && !w.wake
  }

  /** `_process` once the handler has ended. `str(exc)` is formed after the handler's `except` clause has begun and a
      mapping is encoded before the settlement's `try`, so an error of either ends the loop. */
  function AfterHandler(ids: Ids, ending: Ending): Pc {
    match ending
    case ReturnedValue => Settling(ids, Report.Completed(None))
    case ReturnedMapping(json) => if json.Some? then Settling(ids, Report.Completed(json)) else Crashed
    case RaisedException(json) => if json.Some? then Settling(ids, Report.Failed(json)) else Crashed
    case RaisedOther => Crashed
  }

  function Next(w: Loop, a: Act): Loop
    requires Enabled(w, a)
  {
    match a
    case Notify => w.(wake := true)
    case RequestStop => w.(stopping := true, wake := true)
    case CancelTask(_) => w.(pc := Pc.Cancelled)
    case Begin => Loop(Fetching, false, w.stopping, if w.wake then NOTIFY_RETRIES else w.fast)
    case Exit => w.(pc := Stopped)
    case FetchFailed(_) => w.(pc := Idling(true))
    case FetchEmpty => if w.fast > 0 then w.(pc := Idling(false), fast := w.fast - 1) else w.(pc := Idling(true))
    case FetchRows(ids) => w.(pc := Handling(ids), fast := 0)
    case HandlerEnded(ending) => w.(pc := AfterHandler(w.pc.ids, ending))
    case Settle(_) => w.(pc := Top)
    case Abort(_) => w.(pc := Crashed)
    case Woken => w.(pc := Top)
    case TimedOut => w.(pc := Top)
  }

  ghost predicate Trace(w: Loop, acts: seq<Act>)
    decreases |acts|, 0
  {
    acts == [] ||
    var n := |acts| - 1;
    Trace(w, acts[..n]) && Enabled(At(w, acts[..n]), acts[n])
  }

  ghost function At(w: Loop, acts: seq<Act>): Loop
    requires Trace(w, acts)
    decreases |acts|, 1
  {
    if acts == [] then w else Next(At(w, acts[..|acts| - 1]), acts[|acts| - 1])
  }

  lemma TraceMore(w: Loop, acts: seq<Act>, a: Act)
    requires Trace(w, acts) && Enabled(At(w, acts), a)
    ensures Trace(w, acts + [a]) && At(w, acts + [a]) == Next(At(w, acts), a)
  {
    assert (acts + [a])[..|acts|] == acts;
  }

  function One(b: bool): nat { if b then 1 else 0 }

  // ---- prompt wake-ups ----

  lemma {:induction false} PrefixIsTrace(w: Loop, acts: seq<Act>, n: nat)
    requires Trace(w, acts) && n <= |acts|
    ensures Trace(w, acts[..n])
    ensures n < |acts| ==> Enabled(At(w, acts[..n]), acts[n])
    decreases |acts|
  {
    if n == |acts| {
      assert acts[..n] == acts;
    } else {
      var last := |acts| - 1;
      if n < last {
        PrefixIsTrace(w, acts[..last], n);
        assert acts[..last][..n] == acts[..n];
      }
    }
  }

  /** The acts of the loop itself, calls from outside left out. */
  function Own(acts: seq<Act>): nat
    decreases |acts|
  {
    if acts == [] then 0 else
    var last := acts[|acts| - 1];
    Own(acts[..|acts| - 1]) + if last.Notify? || last.RequestStop? then 0 else 1
  }

  /** How many acts the loop can still make without starting a fetch. */
  function Far(pc: Pc): nat {
    match pc
    case Fetching => 4
    case Handling(_) => 3
    case Settling(_, _) => 2
    case Idling(_) => 2
    case Top => 1
    case _ => 0
  }

  /** A wake-up is lost to nothing but the start of a fetch; until then no wait runs out and the loop gets nearer to
      it. */
  lemma {:induction false} BeforeTheFetch(w: Loop, acts: seq<Act>)
    requires Trace(w, acts) && w.wake && forall a | a in acts :: !a.Begin?
    ensures At(w, acts).wake && Own(acts) + Far(At(w, acts).pc) <= Far(w.pc)
    ensures forall a | a in acts :: !a.TimedOut?
    decreases |acts|
  {
    if acts != [] {
      var n := |acts| - 1;
      BeforeTheFetch(w, acts[..n]);
      assert acts == acts[..n] + [acts[n]];
    }
  }

  lemma {:induction false} FirstBegin(acts: seq<Act>) returns (m: nat)
    requires exists a :: a in acts && a.Begin?
    ensures m < |acts| && acts[m].Begin? && forall a | a in acts[..m] :: !a.Begin?
    decreases |acts|
  {
    var n := |acts| - 1;
    if exists a :: a in acts[..n] && a.Begin? {
      m := FirstBegin(acts[..n]);
      assert acts[..n][..m] == acts[..m];
    } else {
      assert acts == acts[..n] + [acts[n]];
      m := n;
    }
  }

  /** With act m, at most the fourth of its own, the loop begins a fetch or ends, and no wait has run out before. */
  ghost predicate Arrives(w: Loop, acts: seq<Act>, m: int) {
    && 0 <= m < |acts| && Own(acts[..m + 1]) <= 4 && Trace(w, acts[..m + 1])
    && (acts[m].Begin? || Ended(At(w, acts[..m + 1]).pc))
    && (forall i | 0 <= i < m :: !acts[i].TimedOut?)
  }

  /** After a notify or a stop the loop begins a new fetch, or ends, with the fourth of its own acts at the latest, and
      before that no wait runs to its end: neither a full poll interval nor a fast retry. */
  lemma NotifyIsPrompt(w: Loop, call: Act, acts: seq<Act>)
    requires (call.Notify? || call.RequestStop?) && !Ended(w.pc) && Trace(Next(w, call), acts)
    requires Own(acts) >= 4 || Ended(At(Next(w, call), acts).pc)
    ensures exists m :: Arrives(Next(w, call), acts, m)
  {
    var awake := Next(w, call);
    if exists a :: a in acts && a.Begin? {
      var m := FirstBegin(acts);
      PrefixIsTrace(awake, acts, m);
      PrefixIsTrace(awake, acts, m + 1);
      BeforeTheFetch(awake, acts[..m]);
      assert acts[..m + 1][..m] == acts[..m];
      assert forall i | 0 <= i < m :: acts[i] in acts[..m];
      assert Arrives(awake, acts, m);
    } else {
      BeforeTheFetch(awake, acts);
      var m := |acts| - 1;
      assert acts[..m + 1] == acts;
      assert forall i | 0 <= i < m :: acts[i] in acts;
      assert Arrives(awake, acts, m);
    }
  }

  // ---- bounded fast retries ----

  /** The waits cut short to a fast retry. */
  ghost function FastWaits(w: Loop, acts: seq<Act>): nat
    requires Trace(w, acts)
    decreases |acts|
  {
    if acts == [] then 0 else
    var n := |acts| - 1;
    FastWaits(w, acts[..n]) + if acts[n].FetchEmpty? && At(w, acts[..n]).fast > 0 then 1 else 0
  }

  /** The loop iterations that found the wake flag set. */
  ghost function WakesSeen(w: Loop, acts: seq<Act>): nat
    requires Trace(w, acts)
    decreases |acts|
  {
    if acts == [] then 0 else
    var n := |acts| - 1;
    WakesSeen(w, acts[..n]) + if acts[n].Begin? && At(w, acts[..n]).wake then 1 else 0
  }

  /** Over any stretch of a run, at most ten fast waits for each wake-up seen, and those still left from before. */
  lemma {:induction false} FastWaitsAreBounded(w: Loop, acts: seq<Act>)
    requires Trace(w, acts) && w.fast <= NOTIFY_RETRIES
    ensures At(w, acts).fast <= NOTIFY_RETRIES
    ensures FastWaits(w, acts) + At(w, acts).fast <= w.fast + NOTIFY_RETRIES * WakesSeen(w, acts)
    decreases |acts|
  {
    if acts != [] { FastWaitsAreBounded(w, acts[..|acts| - 1]); }
  }

  /** The calls from outside. */
  function Calls(acts: seq<Act>): nat
    decreases |acts|
  {
    if acts == [] then 0 else
    var last := acts[|acts| - 1];
    Calls(acts[..|acts| - 1]) + One(last.Notify? || last.RequestStop?)
  }

  /** Every call is seen at most once: beginning a fetch takes the wake-up back. */
  lemma {:induction false} WakesAreCalls(w: Loop, acts: seq<Act>)
    requires Trace(w, acts)
    ensures WakesSeen(w, acts) + One(At(w, acts).wake) <= Calls(acts) + One(w.wake)
    decreases |acts|
  {
    if acts != [] { WakesAreCalls(w, acts[..|acts| - 1]); }
  }

  /** A batch ends the fast retries: until somebody calls again, every wait after it is a full one. */
  lemma {:induction false} NoFastWaitAfterBatch(w: Loop, ids: Ids, acts: seq<Act>)
    requires Enabled(w, FetchRows(ids)) && !w.wake && Trace(Next(w, FetchRows(ids)), acts) && Calls(acts) == 0
    ensures FastWaits(Next(w, FetchRows(ids)), acts) == 0
    ensures At(Next(w, FetchRows(ids)), acts).fast == 0 && !At(Next(w, FetchRows(ids)), acts).wake
    decreases |acts|
  {
    if acts != [] { NoFastWaitAfterBatch(w, ids, acts[..|acts| - 1]); }
  }

  /** `n` empty fetches, each waited out. */
  function EmptyRounds(n: nat): seq<Act> {
    if n == 0 then [] else EmptyRounds(n - 1) + [FetchEmpty, TimedOut, Begin]
  }

  /** The ten are used up exactly: with nothing to fetch and nobody calling, every fast retry left is spent on one
      round, and the round after that waits the full poll interval. */
  lemma {:induction false} FastRetriesAreSpent(w: Loop, n: nat)
    requires w.pc.Fetching? && !w.wake && !w.stopping && n <= w.fast
    ensures Trace(w, EmptyRounds(n)) && At(w, EmptyRounds(n)) == w.(fast := w.fast - n)
    ensures FastWaits(w, EmptyRounds(n)) == n && WakesSeen(w, EmptyRounds(n)) == 0
    ensures Enabled(At(w, EmptyRounds(n)), FetchEmpty)
    ensures Next(At(w, EmptyRounds(n)), FetchEmpty).pc == Idling(n == w.fast)
  {
    if n > 0 {
      FastRetriesAreSpent(w, n - 1);
      OneRound(w, EmptyRounds(n - 1));
    }
  }

  /** After a wake-up that is ten rounds, and the eleventh waits in full. */
  lemma TenFastRetries(w: Loop)
    requires w.pc.Top? && w.wake && !w.stopping
    ensures var awake := Next(w, Begin);
            && Trace(awake, EmptyRounds(10)) && FastWaits(awake, EmptyRounds(10)) == 10
            && Next(At(awake, EmptyRounds(10)), FetchEmpty).pc == Idling(true)
  {
    FastRetriesAreSpent(Next(w, Begin), 10);
  }

  lemma OneRound(w: Loop, acts: seq<Act>)
    requires Trace(w, acts) && var s := At(w, acts); s.pc.Fetching? && !s.wake && !s.stopping && s.fast > 0
    ensures var all := acts + [FetchEmpty, TimedOut, Begin];
            && Trace(w, all) && At(w, all) == At(w, acts).(fast := At(w, acts).fast - 1)
            && FastWaits(w, all) == FastWaits(w, acts) + 1 && WakesSeen(w, all) == WakesSeen(w, acts)
  {
    OneMore(w, acts, FetchEmpty);
    OneMore(w, acts + [FetchEmpty], TimedOut);
    OneMore(w, acts + [FetchEmpty] + [TimedOut], Begin);
    assert acts + [FetchEmpty, TimedOut, Begin] == acts + [FetchEmpty] + [TimedOut] + [Begin];
  }

  lemma OneMore(w: Loop, acts: seq<Act>, a: Act)
    requires Trace(w, acts) && Enabled(At(w, acts), a)
    ensures Trace(w, acts + [a]) && At(w, acts + [a]) == Next(At(w, acts), a)
    ensures FastWaits(w, acts + [a]) == FastWaits(w, acts) + if a.FetchEmpty? && At(w, acts).fast > 0 then 1 else 0
    ensures WakesSeen(w, acts + [a]) == WakesSeen(w, acts) + if a.Begin? && At(w, acts).wake then 1 else 0
  {
    TraceMore(w, acts, a);
    assert (acts + [a])[..|acts|] == acts;
  }

  // ---- what becomes of every batch ----

  /** What can become of a batch. */
  datatype Fate =
    /** It is claimed in the table, whether or not its rows arrive. */
    | Claims
    /** Its rows arrive. */
    | Receives
    /** Its settlement is started: the statement of `_complete` or the transaction of `_fail`. */
    | Starts
    /** Its settlement commits. */
    | Settles
    /** It is claimed but its rows never arrive: the connection drops, or the fetch is cut short after it committed. */
    | LosesReply
    /** It is in the handler when an error escapes or the task is cancelled. */
    | Drops
    /** Its settlement is started but does not commit. */
    | Fails

  /** The batch, if any, that meets a fate with an act. */
  function Meets(w: Loop, a: Act, fate: Fate): seq<Ids> {
    match fate
    case Claims => if a.FetchRows? then [a.ids] else Unanswered(a)
    case Receives => if a.FetchRows? then [a.ids] else []
    case Starts => if w.pc.Handling? && a.HandlerEnded? && !Escapes(a) then [w.pc.ids] else []
    case Settles =>
      if w.pc.Settling? && (a == Settle(true) || a == Abort(SettledRows) || a == CancelTask(SettledRows))
      then [w.pc.ids] else []
    case LosesReply => Unanswered(a)
    case Drops => if w.pc.Handling? && (Escapes(a) || a.CancelTask?) then [w.pc.ids] else []
    case Fails =>
      if w.pc.Settling? && (a == Settle(false) || a == Abort(Nothing) || a == CancelTask(Nothing))
      then [w.pc.ids] else []
  }

  function Unanswered(a: Act): seq<Ids> {
    if a.FetchFailed? && a.lost != [] then [a.lost]
    else if (a.Abort? || a.CancelTask?) && a.done.ClaimedRows? then [a.done.ids]
    else []
  }

  /** All batches of one fate over a run, in order. */
  ghost function All(w: Loop, acts: seq<Act>, fate: Fate): seq<Ids>
    requires Trace(w, acts)
    decreases |acts|
  {
    if acts == [] then [] else
    var n := |acts| - 1;
    All(w, acts[..n], fate) + Meets(At(w, acts[..n]), acts[n], fate)
  }

  /** How often a batch meets a fate: the same jobs may be claimed again and again. */
  ghost function Times(w: Loop, acts: seq<Act>, fate: Fate, ids: Ids): nat
    requires Trace(w, acts)
    decreases |acts|
  {
    if acts == [] then 0 else
    var n := |acts| - 1;
    Times(w, acts[..n], fate, ids) + One(Meets(At(w, acts[..n]), acts[n], fate) == [ids])
  }

  function InHandler(pc: Pc): seq<Ids> { if pc.Handling? then [pc.ids] else [] }

  function InSettlement(pc: Pc): seq<Ids> { if pc.Settling? then [pc.ids] else [] }

  /** An error that no `except` clause of the loop catches. */
  predicate Escapes(a: Act) {
    || a.Abort?
    || (a.HandlerEnded? &&
        a.ending in {ReturnedMapping(None), RaisedException(None), RaisedOther})
  }

  lemma ActAccounts(w: Loop, a: Act, ids: Ids)
    requires Enabled(w, a)
    ensures One(Meets(w, a, Claims) == [ids]) + One(InHandler(w.pc) == [ids])
            == One(Meets(w, a, Starts) == [ids]) + One(Meets(w, a, LosesReply) == [ids])
               + One(Meets(w, a, Drops) == [ids]) + One(InHandler(Next(w, a).pc) == [ids])
    ensures One(Meets(w, a, Starts) == [ids]) + One(InSettlement(w.pc) == [ids])
            == One(Meets(w, a, Settles) == [ids]) + One(Meets(w, a, Fails) == [ids])
               + One(InSettlement(Next(w, a).pc) == [ids])
  {
  }

  /** Each time a batch is claimed in the table its settlement is started, or its reply is lost, or it is dropped in the
      handler, or it is there; and each time its settlement is started that commits, or fails, or is in flight. */
  lemma {:induction false} BatchesAccountedFor(acts: seq<Act>, ids: Ids)
    requires Trace(START, acts)
    ensures Times(START, acts, Claims, ids)
            == Times(START, acts, Starts, ids) + Times(START, acts, LosesReply, ids) + Times(START, acts, Drops, ids)
               + One(InHandler(At(START, acts).pc) == [ids])
    ensures Times(START, acts, Starts, ids)
            == Times(START, acts, Settles, ids) + Times(START, acts, Fails, ids)
               + One(InSettlement(At(START, acts).pc) == [ids])
    decreases |acts|
  {
    if acts != [] {
      var n := |acts| - 1;
      BatchesAccountedFor(acts[..n], ids);
      ActAccounts(At(START, acts[..n]), acts[n], ids);
    }
  }

  /** So however a loop ends, a batch it claimed had no settlement started as often as its reply was lost or it was
      dropped, and was left unsettled that often and as often as its settlement failed: every claim of it is settled
      exactly when none of these ever happened to it. */
  lemma BatchSettledIff(acts: seq<Act>, ids: Ids)
    requires Trace(START, acts) && Ended(At(START, acts).pc)
    ensures Times(START, acts, Claims, ids) - Times(START, acts, Starts, ids)
            == Times(START, acts, LosesReply, ids) + Times(START, acts, Drops, ids)
    ensures Times(START, acts, Claims, ids) - Times(START, acts, Settles, ids)
            == Times(START, acts, LosesReply, ids) + Times(START, acts, Drops, ids) + Times(START, acts, Fails, ids)
    ensures Times(START, acts, Settles, ids) == Times(START, acts, Claims, ids)
            <==> && Times(START, acts, LosesReply, ids) == 0
                 && Times(START, acts, Drops, ids) == 0 && Times(START, acts, Fails, ids) == 0
  {
    BatchesAccountedFor(acts, ids);
  }

  /** The batch received and not yet passed on to its settlement. */
  ghost function Held(w: Loop, acts: seq<Act>): seq<Ids>
    requires Trace(w, acts)
  {
    All(w, acts, Drops) + InHandler(At(w, acts).pc)
  }

  lemma {:induction false} DropEndsTheLoop(acts: seq<Act>)
    requires Trace(START, acts) && All(START, acts, Drops) != []
    ensures At(START, acts).pc.Crashed? || At(START, acts).pc.Cancelled?
    decreases |acts|
  {
    var n := |acts| - 1;
    if All(START, acts[..n], Drops) != [] { DropEndsTheLoop(acts[..n]); }
  }

  /** The batches received are handled one after the other: those whose settlement was started, in the same order, and
      then the one dropped or still in the handler. */
  lemma {:induction false} ReceivedInOrder(acts: seq<Act>)
    requires Trace(START, acts)
    ensures All(START, acts, Receives) == All(START, acts, Starts) + Held(START, acts)
    decreases |acts|
  {
    if acts != [] {
      var n := |acts| - 1;
      ReceivedInOrder(acts[..n]);
      if All(START, acts[..n], Drops) != [] { DropEndsTheLoop(acts[..n]); }
      HeldMoves(At(START, acts[..n]), acts[n], All(START, acts[..n], Drops));
      Shift(All(START, acts[..n], Starts), Held(START, acts[..n]), Meets(At(START, acts[..n]), acts[n], Receives),
            Meets(At(START, acts[..n]), acts[n], Starts), Held(START, acts));
    }
  }

  lemma Shift(starts: seq<Ids>, held: seq<Ids>, received: seq<Ids>, started: seq<Ids>, after: seq<Ids>)
    requires held + received == started + after
    ensures starts + held + received == starts + started + after
  {
    assert starts + held + received == starts + (held + received);
  }

  lemma HeldMoves(w: Loop, a: Act, drops: seq<Ids>)
    requires Enabled(w, a) && (drops != [] ==> w.pc.Crashed? || w.pc.Cancelled?)
    ensures drops + InHandler(w.pc) + Meets(w, a, Receives)
            == Meets(w, a, Starts) + (drops + Meets(w, a, Drops) + InHandler(Next(w, a).pc))
  {
    if drops == [] { assert drops + InHandler(w.pc) == InHandler(w.pc); }
  }

  /** When a stop makes the loop exit, the settlement of every batch it ever received has been started, in order, and
      each has committed or failed. */
  lemma StopSettlesEveryBatch(acts: seq<Act>, ids: Ids)
    requires Trace(START, acts) && At(START, acts).pc.Stopped?
    ensures All(START, acts, Receives) == All(START, acts, Starts)
    ensures Times(START, acts, Starts, ids) == Times(START, acts, Settles, ids) + Times(START, acts, Fails, ids)
  {
    ReceivedInOrder(acts);
    if All(START, acts, Drops) != [] { DropEndsTheLoop(acts); }
    BatchesAccountedFor(acts, ids);
  }

  // ---- a batch is settled as its handler ended ----

  /** How a handler has to have ended for a report: returned, with its mapping if it is one, for a completion, and
      raised an Exception for a failure. */
  predicate EndedSo(ending: Ending, report: Report) {
    if report.Completed?
    then (ending.ReturnedValue? && report.output.None?) || (ending.ReturnedMapping? && ending.json == report.output)
    else ending.RaisedException? && ending.json == report.output && report.output.Some?
  }

  /** With act m the handler of the batch ended, and nothing has happened since but calls from outside. */
  ghost predicate HandledAt(acts: seq<Act>, m: int, ids: Ids, report: Report) {
    && 0 <= m < |acts| && acts[m].HandlerEnded? && EndedSo(acts[m].ending, report)
    && Trace(START, acts[..m]) && At(START, acts[..m]).pc == Handling(ids)
    && forall i | m < i < |acts| :: acts[i].Notify? || acts[i].RequestStop?
  }

  /** In every run, a batch whose settlement is in flight is being completed if its handler returned, and failed if its
      handler raised an Exception, with what that returned or raised. */
  lemma {:induction false} SettledAsHandled(acts: seq<Act>)
    requires Trace(START, acts) && At(START, acts).pc.Settling?
    ensures exists m :: HandledAt(acts, m, At(START, acts).pc.ids, At(START, acts).pc.report)
    decreases |acts|
  {
    var n, pc := |acts| - 1, At(START, acts).pc;
    if acts[n].HandlerEnded? {
      assert HandledAt(acts, n, pc.ids, pc.report);
    } else {
      SettledAsHandled(acts[..n]);
      var m :| HandledAt(acts[..n], m, pc.ids, pc.report);
      assert acts[..n][..m] == acts[..m];
      assert HandledAt(acts, m, pc.ids, pc.report);
    }
  }

  /** And every handler that returns what JSON can encode, or raises what it can report, has its batch settled next. */
  lemma HandledIsSettled(w: Loop, ending: Ending)
    requires w.pc.Handling?
    ensures var next := Next(w, HandlerEnded(ending)).pc;
            if ending.ReturnedValue? || (ending.ReturnedMapping? && ending.json.Some?)
            then next.Settling? && next.ids == w.pc.ids && next.report.Completed? && EndedSo(ending, next.report)
            else if ending.RaisedException? && ending.json.Some?
            then next.Settling? && next.ids == w.pc.ids && next.report.Failed? && EndedSo(ending, next.report)
            else next.Crashed?
  {
  }

  function Members(ids: Ids): set<Id> { set id | id in ids }

  /** The settlement of a batch: one statement, or the transaction that fails and routes. What the database chooses is
      left to it. */
  predicate Settlement(queue: string, ids: Ids, report: Report, s: Statements.Stmt) {
    match report
    case Completed(output) => s == Statements.Stmt.CompleteJobs(queue, Members(ids), output)
    case Failed(output) =>
      s.FailById? && s.queue == queue && s.ids == Members(ids) && s.output == output
  }

  /** A failed fetch costs a full poll interval and no fast retry. */
  lemma FailedFetchWaits(w: Loop, lost: Ids)
    requires w.pc.Fetching?
    ensures Next(w, FetchFailed(lost)) == w.(pc := Idling(true))
  {
  }

  /** Short of being cancelled, the task dies exactly when a handler returns a mapping that JSON cannot encode, raises
      an Exception whose text cannot be formed or something that is no Exception, or a database call does the latter. */
  lemma {:induction false} CrashesIff(acts: seq<Act>)
    requires Trace(START, acts)
    ensures At(START, acts).pc.Crashed? <==> exists a :: a in acts && Escapes(a)
    decreases |acts|
  {
    if acts != [] {
      var n := |acts| - 1;
      CrashesIff(acts[..n]);
      assert acts == acts[..n] + [acts[n]];
      assert forall a | a in acts[..n] :: a in acts;
      assert Escapes(acts[n]) ==> acts[n] in acts;
    }
  }

  /** A crashed loop claims, starts and settles nothing any more. */
  lemma {:induction false} CrashIsFinal(w: Loop, acts: seq<Act>)
    requires Trace(w, acts) && w.pc.Crashed?
    ensures At(w, acts).pc.Crashed?
    ensures All(w, acts, Claims) == [] && All(w, acts, Starts) == [] && All(w, acts, Settles) == []
    decreases |acts|
  {
    if acts != [] { CrashIsFinal(w, acts[..|acts| - 1]); }
  }

  // ---- the loop itself ----

  datatype Call = NotifyCall | StopCall

  /** One await: the calls others make while the task is suspended, and how it ends. */
  datatype Await = Await(calls: seq<Call>, outcome: Act)

  function ActOf(c: Call): Act { if c.NotifyCall? then Notify else RequestStop }

  function ActsOf(calls: seq<Call>): seq<Act> {
    if calls == [] then [] else ActsOf(calls[..|calls| - 1]) + [ActOf(calls[|calls| - 1])]
  }

  function AfterCalls(w: Loop, calls: seq<Call>): (after: Loop)
    ensures after.pc == w.pc && after.fast == w.fast
  {
    if calls == [] then w else Next(AfterCalls(w, calls[..|calls| - 1]), ActOf(calls[|calls| - 1]))
  }

  /** An await ends by itself, never by a call or by the loop test. */
  predicate Resumes(w: Loop, a: Act) {
    Enabled(w, a) && !a.Notify? && !a.RequestStop? && !a.Begin? && !a.Exit?
  }

  /** The machine driven by a script of awaits, until it ends, the script ends, or an await cannot end as scripted. */
  function Drive(w: Loop, script: seq<Await>): seq<Act>
    decreases |script|, if w.pc.Top? then 1 else 0
  {
    if Ended(w.pc) then []
    else if w.pc.Top? then
      var test := if w.stopping then Exit else Begin;
      [test] + Drive(Next(w, test), script)
    else if script == [] then []
    else
      var called := AfterCalls(w, script[0].calls);
      ActsOf(script[0].calls) +
      if Resumes(called, script[0].outcome)
      then [script[0].outcome] + Drive(Next(called, script[0].outcome), script[1..]) else []
  }

  /** What has been done and what the machine would still do make up one whole. */
  ghost predicate Plays(log: seq<Act>, w: Loop, script: seq<Await>, whole: seq<Act>) {
    log + Drive(w, script) == whole
  }

  lemma PlayTest(log: seq<Act>, w: Loop, script: seq<Await>, whole: seq<Act>)
    requires Plays(log, w, script, whole) && w.pc.Top?
    ensures var test := if w.stopping then Exit else Begin;
            Plays(log + [test], Next(w, test), script, whole)
  {
    var test := if w.stopping then Exit else Begin;
    assert log + Drive(w, script) == log + [test] + Drive(Next(w, test), script);
  }

  lemma PlayEnd(log: seq<Act>, w: Loop, script: seq<Await>, whole: seq<Act>)
    requires Plays(log, w, script, whole) && (Ended(w.pc) || (script == [] && !w.pc.Top?))
    ensures log == whole
  {
    assert Drive(w, script) == [];
  }

  lemma PlayCalls(log: seq<Act>, w: Loop, script: seq<Await>, whole: seq<Act>)
    requires Plays(log, w, script, whole) && script != [] && !Ended(w.pc) && !w.pc.Top?
    ensures var called := AfterCalls(w, script[0].calls);
            if Resumes(called, script[0].outcome)
            then Plays(log + ActsOf(script[0].calls) + [script[0].outcome], Next(called, script[0].outcome),
                       script[1..], whole)
            else log + ActsOf(script[0].calls) == whole
  {
    var called := AfterCalls(w, script[0].calls);
    if Resumes(called, script[0].outcome) {
      assert log + Drive(w, script)
             == log + ActsOf(script[0].calls) + [script[0].outcome]
                + Drive(Next(called, script[0].outcome), script[1..]);
    } else {
      assert Drive(w, script) == ActsOf(script[0].calls);
    }
  }

  /** Everything the machine does under a script is one of its runs. */
  lemma {:induction false} DriveIsTrace(log: seq<Act>, w: Loop, script: seq<Await>, whole: seq<Act>)
    requires Trace(START, log) && At(START, log) == w && Plays(log, w, script, whole)
    ensures Trace(START, whole)
    decreases |script|, if w.pc.Top? then 1 else 0
  {
    if Ended(w.pc) || (script == [] && !w.pc.Top?) {
      PlayEnd(log, w, script, whole);
    } else if w.pc.Top? {
      var test := if w.stopping then Exit else Begin;
      PlayTest(log, w, script, whole);
      TraceMore(START, log, test);
      DriveIsTrace(log + [test], Next(w, test), script, whole);
    } else {
      var calls, outcome := script[0].calls, script[0].outcome;
      PlayCalls(log, w, script, whole);
      CallsAreTrace(w, log, calls);
      if Resumes(AfterCalls(w, calls), outcome) {
        TraceMore(START, log + ActsOf(calls), outcome);
        DriveIsTrace(log + ActsOf(calls) + [outcome], Next(AfterCalls(w, calls), outcome), script[1..], whole);
      }
    }
  }

  lemma {:induction false} CallsAreTrace(w: Loop, done: seq<Act>, calls: seq<Call>)
    requires Trace(START, done) && At(START, done) == w
    ensures Trace(START, done + ActsOf(calls)) && At(START, done + ActsOf(calls)) == AfterCalls(w, calls)
  {
    if calls == [] {
      assert done + ActsOf(calls) == done;
    } else {
      var n := |calls| - 1;
      CallsAreTrace(w, done, calls[..n]);
      TraceMore(START, done + ActsOf(calls[..n]), ActOf(calls[n]));
      assert done + ActsOf(calls) == done + ActsOf(calls[..n]) + [ActOf(calls[n])];
    }
  }

  class Worker {
    var wake: bool
    var stopping: bool

    constructor ()
      ensures !wake && !stopping
    {
      wake, stopping := false, false;
    }

    method Notify()
      modifies this`wake
      ensures wake
    {
      wake := true;
    }

    method RequestStop()
      modifies this
      ensures wake && stopping
    {
      stopping := true;
      wake := true;
    }

    ghost function View(pc: Pc, fast: nat): Loop
      reads this
    {
      Loop(pc, wake, stopping, fast)
    }

    /** Suspends the task at an await; `resumed` is false if it cannot end as the script says. */
    method Suspend(a: Await, log: seq<Act>, pc: Pc, fast: nat) returns (log': seq<Act>, resumed: bool)
      modifies this
      ensures View(pc, fast) == AfterCalls(old(View(pc, fast)), a.calls)
      ensures resumed == Resumes(View(pc, fast), a.outcome)
      ensures log' == log + ActsOf(a.calls) + if resumed then [a.outcome] else []
    {
      log' := log;
      ghost var w := View(pc, fast);
      for i := 0 to |a.calls|
        invariant log' == log + ActsOf(a.calls[..i]) && View(pc, fast) == AfterCalls(w, a.calls[..i])
      {
        assert a.calls[..i + 1][..i] == a.calls[..i];
        if a.calls[i].NotifyCall? { Notify(); } else { RequestStop(); }
        log' := log' + [ActOf(a.calls[i])];
      }
      assert a.calls[..|a.calls|] == a.calls;
      resumed := Resumes(Loop(pc, wake, stopping, fast), a.outcome);
      if resumed { log' := log' + [a.outcome]; }
    }

    /** Under every script of awaits the worker does exactly what the machine does. */
    method Work(script: seq<Await>) returns (log: seq<Act>)
      requires !wake && !stopping
      modifies this
      ensures log == Drive(START, script) && Trace(START, log)
    {
      ghost var whole := Drive(START, script);
      assert Plays([], START, script, whole);
      DriveIsTrace([], START, script, whole);
      log := Run(script, whole);
    }

    /** `_run` */
    method Run(script: seq<Await>, ghost whole: seq<Act>) returns (log: seq<Act>)
      requires Plays([], View(Top, 0), script, whole)
      modifies this
      ensures log == whole
    {
      var fast: nat, i: nat, ok := 0, 0, true;
      log := [];
      assert script[i..] == script;
      while !stopping
        invariant i <= |script| && Plays(log, View(Top, fast), script[i..], whole)
        decreases |script| - i
      {
        PlayTest(log, View(Top, fast), script[i..], whole);
        if wake { fast := NOTIFY_RETRIES; }
        wake := false;
        log := log + [Begin];
        if i == |script| { PlayEnd(log, View(Fetching, fast), [], whole); return; }
        log, i, fast, ok := Fetch(script, i, log, fast, whole);
        if !ok { return; }
      }
      PlayTest(log, View(Top, fast), script[i..], whole);
      log := log + [Exit];
      PlayEnd(log, View(Stopped, fast), script[i..], whole);
    }

    /** The rest of an iteration: the fetch, and what follows from its result. */
    method Fetch(script: seq<Await>, i: nat, log: seq<Act>, fast: nat, ghost whole: seq<Act>)
      returns (log': seq<Act>, j: nat, fast': nat, ok: bool)
      requires i < |script| && Plays(log, View(Fetching, fast), script[i..], whole)
      modifies this
      ensures i < j <= |script|
      ensures if ok then Plays(log', View(Top, fast'), script[j..], whole) else log' == whole
    {
      fast' := fast;
      PlayCalls(log, View(Fetching, fast), script[i..], whole);
      var fetched := script[i].outcome;
      log', ok := Suspend(script[i], log, Fetching, fast);
      assert script[i..][1..] == script[i + 1..];
      j := i + 1;
      if !ok { return; }
      if fetched.CancelTask? || fetched.Abort? {
        PlayEnd(log', View(if fetched.Abort? then Crashed else Pc.Cancelled, fast), script[j..], whole);
        return log', j, fast', false;
      }
      if fetched.FetchRows? {
        fast' := 0;
        log', j, ok := Process(fetched.ids, script, j, log', whole);
      } else {
        var full := fetched.FetchFailed? || fast == 0;
        if fetched.FetchEmpty? && fast > 0 { fast' := fast - 1; }
        log', j, ok := Idle(full, script, j, log', fast', whole);
      }
    }

    /** `_process`: run the handler, then complete or fail the batch. */
    method Process(ids: Ids, script: seq<Await>, i: nat, log: seq<Act>, ghost whole: seq<Act>)
      returns (log': seq<Act>, j: nat, ok: bool)
      requires i <= |script| && Plays(log, View(Handling(ids), 0), script[i..], whole)
      modifies this
      ensures i <= j <= |script|
      ensures if ok then Plays(log', View(Top, 0), script[j..], whole) else log' == whole
    {
      log', j := log, i;
      if j == |script| { return log', j, false; }
      PlayCalls(log', View(Handling(ids), 0), script[j..], whole);
      var result := script[j].outcome;
      log', ok := Suspend(script[j], log', Handling(ids), 0);
      assert script[j..][1..] == script[j + 1..];
      j := j + 1;
      if !ok || result.CancelTask? { return log', j, false; }
      match result.ending {
        case ReturnedValue => log', j, ok := SettleBatch(ids, Report.Completed(None), script, j, log', whole);
        case ReturnedMapping(json) =>
          if json.None? { return log', j, false; }
          log', j, ok := SettleBatch(ids, Report.Completed(json), script, j, log', whole);
        case RaisedException(json) =>
          if json.None? { return log', j, false; }
          log', j, ok := SettleBatch(ids, Report.Failed(json), script, j, log', whole);
        case RaisedOther => return log', j, false;
      }
    }

    /** The statement of `_complete` or the transaction of `_fail`: an Exception it raises is only logged. */
    method SettleBatch(ids: Ids, report: Report, script: seq<Await>, i: nat, log: seq<Act>, ghost whole: seq<Act>)
      returns (log': seq<Act>, j: nat, ok: bool)
      requires i <= |script| && Plays(log, View(Settling(ids, report), 0), script[i..], whole)
      modifies this
      ensures i <= j <= |script|
      ensures if ok then Plays(log', View(Top, 0), script[j..], whole) else log' == whole
    {
      log', j := log, i;
      if j == |script| { return log', j, false; }
      PlayCalls(log', View(Settling(ids, report), 0), script[j..], whole);
      var settled := script[j].outcome;
      log', ok := Suspend(script[j], log', Settling(ids, report), 0);
      assert script[j..][1..] == script[j + 1..];
      j := j + 1;
      ok := ok && settled.Settle?;
    }

    /** `_idle`: wait until woken or until the time is up. */
    method Idle(full: bool, script: seq<Await>, i: nat, log: seq<Act>, fast: nat, ghost whole: seq<Act>)
      returns (log': seq<Act>, j: nat, ok: bool)
      requires i <= |script| && Plays(log, View(Idling(full), fast), script[i..], whole)
      modifies this
      ensures i <= j <= |script|
      ensures if ok then Plays(log', View(Top, fast), script[j..], whole) else log' == whole
    {
      log', j := log, i;
      if j == |script| { return log', j, false; }
      PlayCalls(log', View(Idling(full), fast), script[j..], whole);
      var outcome := script[j].outcome;
      log', ok := Suspend(script[j], log', Idling(full), fast);
      assert script[j..][1..] == script[j + 1..];
      j := j + 1;
      ok := ok && !outcome.CancelTask?;
    }
  }
}
