/**
 The signal lifecycle ledger: an append-only log of attempted moves beside a table of current
 states, and the restore path that brings a recovered watcher back to WATCHING.
 */
module Ledger {
  import opened Common

  datatype State =
    | Created | Adopted | Persisted | LoadedByOsm | Evaluating | Registered | Watching | Revalidating
    | TriggerReady | EntrySubmitted | PositionOpened | RecoveredPosition | PositionReseeded
    | Invalidated | Rejected | Expired | Cancelled | Removed | Error

  /** The legal transition table; `None` is a signal this process has not seen. */
  predicate Legal(from: Option<State>, to: State) {
    match from
    case None => to.Created? || to.Adopted? || to.RecoveredPosition? || to.Invalidated? || to.Cancelled? || to.Expired?
    case Some(s) =>
      match s
      case Created => to.Persisted? || to.Rejected? || to.Error?
      case Adopted => to.Watching? || to.Revalidating? || to.TriggerReady? || to.Invalidated? || to.Rejected?
          || to.Expired? || to.RecoveredPosition? || to.Error?
      case Persisted => to.LoadedByOsm? || to.Watching? || to.Expired? || to.Rejected? || to.Error?
      case LoadedByOsm => to.Evaluating? || to.Registered? || to.Watching? || to.Invalidated? || to.Rejected?
          || to.Error?
      case Evaluating => to.Watching? || to.Invalidated? || to.Rejected? || to.Expired? || to.Error?
      case Registered => to.Watching? || to.Rejected? || to.Error?
      case Watching => to.Revalidating? || to.TriggerReady? || to.Invalidated? || to.Rejected? || to.Expired?
          || to.Cancelled? || to.Error?
      case Revalidating => to.Watching? || to.Invalidated? || to.Rejected? || to.Expired? || to.Error?
      case TriggerReady => to.EntrySubmitted? || to.Watching? || to.Invalidated? || to.Rejected? || to.Error?
      case EntrySubmitted => to.PositionOpened? || to.Rejected? || to.Error?
      case RecoveredPosition => to.PositionReseeded? || to.Error?
      case Invalidated => to.Removed?
      case Rejected => to.Removed?
      case Cancelled => to.Removed?
      case Expired => to.Removed?
      case Error => to.Removed? || to.Invalidated?
      case _ => false
  }

  predicate Allowed(from: Option<State>, to: State) {
    Legal(from, to) || from == Some(to)
  }

  predicate Terminal(s: State) {
    s.PositionOpened? || s.PositionReseeded? || s.Removed?
  }

  /** Still on its way: neither an end nor a position. */
  predicate OnItsWay(s: State) {
    || s.Created? || s.Adopted? || s.Persisted? || s.LoadedByOsm? || s.Evaluating? || s.Registered? || s.Watching?
    || s.Revalidating? || s.TriggerReady? || s.EntrySubmitted?
  }

  /** The table read by destination: from where each state is entered.  Whatever is on its way can be
      rejected or fail; a watch is only left through an explanation; and a terminal state is exactly one
      that nothing leaves. */
  lemma EnteredFrom(from: Option<State>, to: State)
    ensures Legal(from, to) <==>
              match to
              case Created => from == None
              case Adopted => from == None
              case Persisted => from == Some(Created)
              case LoadedByOsm => from == Some(Persisted)
              case Evaluating => from == Some(LoadedByOsm)
              case Registered => from == Some(LoadedByOsm)
              case Watching =>
                from.Some? && OnItsWay(from.value)
                && !from.value.Created? && !from.value.Watching? && !from.value.EntrySubmitted?
              case Revalidating => from == Some(Adopted) || from == Some(Watching)
              case TriggerReady => from == Some(Adopted) || from == Some(Watching)
              case EntrySubmitted => from == Some(TriggerReady)
              case PositionOpened => from == Some(EntrySubmitted)
              case RecoveredPosition => from == None || from == Some(Adopted)
              case PositionReseeded => from == Some(RecoveredPosition)
              case Invalidated =>
                || from == None || from == Some(Adopted) || from == Some(LoadedByOsm) || from == Some(Evaluating)
                || from == Some(Watching) || from == Some(Revalidating) || from == Some(TriggerReady)
                || from == Some(Error)
              case Rejected => from.Some? && OnItsWay(from.value)
              case Expired =>
                || from == None || from == Some(Adopted) || from == Some(Persisted) || from == Some(Evaluating)
                || from == Some(Watching) || from == Some(Revalidating)
              case Cancelled => from == None || from == Some(Watching)
              case Removed =>
                || from == Some(Invalidated) || from == Some(Rejected) || from == Some(Cancelled)
                || from == Some(Expired) || from == Some(Error)
              case Error => from.Some? && (OnItsWay(from.value) || from.value.RecoveredPosition?)
  {
  }

  lemma TerminalIff(s: State)
    ensures Terminal(s) <==> forall to :: !Legal(Some(s), to)
  {
    if !Terminal(s) {
      assert Legal(Some(s), Removed) || Legal(Some(s), Error);
    }
  }

  const ILLEGAL := "ILLEGAL_TRANSITION: "

  /** Rows that report an illegal attempt carry this prefix in their reason. */
  predicate Marked(reason: string) {
    ILLEGAL <= reason
  }

  datatype Entry = Entry(signal: string, from: Option<State>, to: State, reason: string, correlation: string)
  datatype Refusal = Refusal(signal: string, code: string, text: string, correlation: string)

  datatype Book = Book(
    entries: seq<Entry>, refusals: seq<Refusal>, current: map<string, State>, correlations: map<string, string>)

  const BLANK := Book([], [], map[], map[])

  function StateIn(current: map<string, State>, signal: string): Option<State> {
    if signal in current then Some(current[signal]) else None
  }

  /** `drawn` is the random id used if the signal has no correlation id yet. */
  datatype Call =
    | Move(signal: string, to: State, from: Option<State>, reason: string, strict: bool, drawn: string)
    | Refuse(signal: string, code: string, text: string, drawn: string)

  function Correlate(b: Book, signal: string, drawn: string): Book {
    if signal in b.correlations then b else b.(correlations := b.correlations[signal := drawn])
  }

  function Log(b: Book, signal: string, from: Option<State>, to: State, reason: string, drawn: string): Book {
    var c := Correlate(b, signal, drawn);
    c.(entries := c.entries + [Entry(signal, from, to, reason, c.correlations[signal])])
  }

  function Origin(b: Book, signal: string, from: Option<State>): Option<State> {
    if from.Some? then from else StateIn(b.current, signal)
  }

  function Accepted(b: Book, signal: string, origin: Option<State>, to: State, reason: string, drawn: string): Book {
    var after := Log(b, signal, origin, to, reason, drawn);
    after.(current := after.current[signal := to])
  }

  function Noted(b: Book, signal: string, origin: Option<State>, reason: string, drawn: string): Book {
    Log(b, signal, origin, Error, ILLEGAL + reason, drawn)
  }

  /** An illegal attempt is logged as an error row first; a strict one then raises. */
  function Moved(b: Book, c: Call): Book
    requires c.Move?
  {
    var origin := Origin(b, c.signal, c.from);
    if Allowed(origin, c.to) then Accepted(b, c.signal, origin, c.to, c.reason, c.drawn)
    else if c.strict then Noted(b, c.signal, origin, c.reason, c.drawn)
    else Log(Noted(b, c.signal, origin, c.reason, c.drawn), c.signal, origin, c.to, c.reason, c.drawn)
  }

  /** The rows one call adds: one for a legal move or a repeated state, for an illegal one first the
      error row with the marked reason and then, unless it raises, the attempt itself. */
  lemma RowsOfCall(b: Book, c: Call)
    ensures var signal, to, reason, strict :=
              c.signal, if c.Move? then c.to else Rejected, if c.Move? then c.reason else c.code + ": " + c.text,
              c.Move? && c.strict;
            var origin := if c.Move? && c.from.Some? then c.from
                          else if signal in b.current then Some(b.current[signal]) else None;
            var id := if signal in b.correlations then b.correlations[signal] else c.drawn;
            var attempt := Entry(signal, origin, to, reason, id);
            var error := Entry(signal, origin, Error, "ILLEGAL_TRANSITION: " + reason, id);
            var legal := Legal(origin, to) || origin == Some(to);
            && Next(b, c).entries ==
                 b.entries + (if legal then [attempt] else if strict then [error] else [error, attempt])
            && Next(b, c).current == (if legal then b.current[signal := to] else b.current)
  {
  }

  predicate Raises(b: Book, c: Call)
    requires c.Move?
  {
    c.strict && !Allowed(Origin(b, c.signal, c.from), c.to)
  }

  /** A rejection moves the signal to REJECTED, if that is legal. */
  function RefusalMove(c: Call): Call
    requires c.Refuse?
  {
    Move(c.signal, Rejected, None, c.code + ": " + c.text, false, c.drawn)
  }

  function Refusing(b: Book, c: Call): Book
    requires c.Refuse?
  {
    var known := Correlate(b, c.signal, c.drawn);
    known.(refusals := known.refusals + [Refusal(c.signal, c.code, c.text, known.correlations[c.signal])])
  }

  function Refused(b: Book, c: Call): Book
    requires c.Refuse?
  {
    Moved(Refusing(b, c), RefusalMove(c))
  }

  function Next(b: Book, c: Call): Book {
    if c.Move? then Moved(b, c) else Refused(b, c)
  }

  function Run(calls: seq<Call>): Book {
    if |calls| == 0 then BLANK else Next(Run(calls[..|calls| - 1]), calls[|calls| - 1])
  }

  class SignalLedger {
    var entries: seq<Entry>
    var refusals: seq<Refusal>
    var current: map<string, State>
    var correlations: map<string, string>

    ghost function View(): Book
      reads this
    {
      Book(entries, refusals, current, correlations)
    }

    constructor ()
      ensures View() == BLANK
    {
      entries, refusals, current, correlations := [], [], map[], map[];
    }

    method CorrelationId(signal: string, drawn: string) returns (id: string)
      modifies `correlations
      ensures View() == Correlate(old(View()), signal, drawn)
      ensures signal in correlations && id == correlations[signal]
    {
      if signal !in correlations {
        correlations := correlations[signal := drawn];
      }
      id := correlations[signal];
    }

    method Record(signal: string, from: Option<State>, to: State, reason: string, drawn: string)
      modifies `entries, `correlations
      ensures View() == Log(old(View()), signal, from, to, reason, drawn)
    {
      var id := CorrelationId(signal, drawn);
      entries := entries + [Entry(signal, from, to, reason, id)];
    }

    method Transition(signal: string, to: State, from: Option<State>, reason: string, strict: bool, drawn: string)
        returns (raised: bool)
      modifies `entries, `correlations, `current
      ensures View() == Moved(old(View()), Move(signal, to, from, reason, strict, drawn))
      ensures raised == Raises(old(View()), Move(signal, to, from, reason, strict, drawn))
    {
      var origin := if from.Some? then from else if signal in current then Some(current[signal]) else None;
      var legal := Allowed(origin, to);
      ghost var before := View();
      raised := false;
      if !legal {
        Record(signal, origin, Error, ILLEGAL + reason, drawn);
        assert View() == Noted(before, signal, origin, reason, drawn);
        if strict {
          return true;
        }
      }
      Record(signal, origin, to, reason, drawn);
      if legal {
        current := current[signal := to];
        assert View() == Accepted(before, signal, origin, to, reason, drawn);
      }
    }

    method Reject(signal: string, code: string, text: string, drawn: string)
      modifies this
      ensures View() == Refused(old(View()), Refuse(signal, code, text, drawn))
    {
      var id := CorrelationId(signal, drawn);
      refusals := refusals + [Refusal(signal, code, text, id)];
      var raised := Transition(signal, Rejected, None, code + ": " + text, false, drawn);
    }

    /** Restores a recovered watcher.  `full` is a recovery rearm that is not a materialization
        resume; `known` is a supplied non-empty signal id and ticker with the ledger available. */
    method Restore(full: bool, known: bool, signal: string, drawn: string) returns (ok: bool)
      modifies `entries, `correlations, `current
      ensures !full || !known ==> View() == old(View()) && ok == !full
      ensures full && known ==>
                var was := StateIn(old(current), signal);
                && ok == (was.None? || was == Some(Adopted) || was == Some(Watching))
                && (ok ==> current == old(current)[signal := Watching])
                && (!ok ==> View() == old(View()))
                && old(entries) <= entries
                && |entries| == |old(entries)| + (if was.None? then 2 else if was == Some(Adopted) then 1 else 0)
                && forall e :: e in entries[|old(entries)|..]
                    ==> e.signal == signal && Allowed(e.from, e.to) && !Marked(e.reason)
    {
      if !full {
        return true;
      }
      if !known {
        return false;
      }
      assert !Marked(ADOPTING) && !Marked(RESTORING) by {
        assert ILLEGAL[0] != ADOPTING[0] && ILLEGAL[0] != RESTORING[0];
      }
      if signal !in current {
        var raised := Transition(signal, Adopted, None, ADOPTING, false, drawn);
        if !(signal in current && current[signal] == Adopted) {
          return false;
        }
        raised := Transition(signal, Watching, None, RESTORING, false, drawn);
        ok := signal in current && current[signal] == Watching;
      } else if current[signal] == Adopted {
        var raised := Transition(signal, Watching, None, RESTORING, false, drawn);
        ok := signal in current && current[signal] == Watching;
      } else {
        ok := current[signal] == Watching;
        assert ok ==> current == current[signal := Watching];
      }
    }
  }

  const ADOPTING := "restart_recovery_loaded_existing_signal"
  const RESTORING := "restored_to_watching_after_restart"

  // ---- Replay ----

  /** What a reader rebuilds from the log alone. */
  function Replay(entries: seq<Entry>): map<string, State> {
    if |entries| == 0 then map[] else ReplayStep(Replay(entries[..|entries| - 1]), entries[|entries| - 1])
  }

  function ReplayStep(states: map<string, State>, e: Entry): map<string, State> {
    if Marked(e.reason) || !Allowed(StateIn(states, e.signal), e.to) then states else states[e.signal := e.to]
  }

  predicate Faithful(b: Book) {
    Replay(b.entries) == b.current
  }

  /** The condition a caller can check beforehand: either nothing changes, or the log and the
      table judge the move alike. */
  predicate Replayable(b: Book, c: Call)
    requires c.Move?
  {
    var now := StateIn(b.current, c.signal);
    var taken := Allowed(Origin(b, c.signal, c.from), c.to);
    now == Some(c.to) || Raises(b, c) || (taken == (!Marked(c.reason) && Allowed(now, c.to)))
  }

  lemma ReplayOfLog(b: Book, signal: string, from: Option<State>, to: State, reason: string, drawn: string)
    ensures Replay(Log(b, signal, from, to, reason, drawn).entries) ==
              if Marked(reason) || !Allowed(StateIn(Replay(b.entries), signal), to)
                  then Replay(b.entries) else Replay(b.entries)[signal := to]
  {
    var entries := Log(b, signal, from, to, reason, drawn).entries;
    assert entries[..|entries| - 1] == b.entries;
  }

  lemma NotesDoNotReplay(b: Book, signal: string, origin: Option<State>, reason: string, drawn: string)
    ensures Replay(Noted(b, signal, origin, reason, drawn).entries) == Replay(b.entries)
    ensures Noted(b, signal, origin, reason, drawn).current == b.current
  {
    ReplayOfLog(b, signal, origin, Error, ILLEGAL + reason, drawn);
  }

  /** From a faithful ledger a move keeps it faithful exactly under that condition. */
  lemma MoveIsFaithfulIff(b: Book, c: Call)
    requires Faithful(b) && c.Move?
    ensures Faithful(Moved(b, c)) <==> Replayable(b, c)
  {
    var origin, now := Origin(b, c.signal, c.from), StateIn(b.current, c.signal);
    var set1 := b.current[c.signal := c.to];
    assert now == Some(c.to) <==> set1 == b.current by {
      assert StateIn(set1, c.signal) == Some(c.to);
    }
    if Allowed(origin, c.to) {
      ReplayOfLog(b, c.signal, origin, c.to, c.reason, c.drawn);
    } else {
      NotesDoNotReplay(b, c.signal, origin, c.reason, c.drawn);
      if !c.strict {
        ReplayOfLog(Noted(b, c.signal, origin, c.reason, c.drawn), c.signal, origin, c.to, c.reason, c.drawn);
      }
    }
  }

  /** A call that leaves the origin to the ledger and does not borrow the error marker. */
  predicate Plain(c: Call) {
    if c.Move? then c.from.None? && !Marked(c.reason) else !Marked(RefusalMove(c).reason)
  }

  lemma PlainIsFaithful(b: Book, c: Call)
    requires Faithful(b) && Plain(c)
    ensures Faithful(Next(b, c))
  {
    if c.Move? {
      MoveIsFaithfulIff(b, c);
    } else {
      MoveIsFaithfulIff(Refusing(b, c), RefusalMove(c));
    }
  }

  /** Replaying the log reproduces the table of current states, whatever was attempted. */
  lemma {:induction false} ReplayReproduces(calls: seq<Call>)
    requires forall c :: c in calls ==> Plain(c)
    ensures Faithful(Run(calls))
  {
    if |calls| > 0 {
      ReplayReproduces(calls[..|calls| - 1]);
      PlainIsFaithful(Run(calls[..|calls| - 1]), calls[|calls| - 1]);
    }
  }

  /** A rejection is replayed exactly unless its reason borrows the marker while the table moves. */
  lemma RefusalIsFaithfulIff(b: Book, c: Call)
    requires Faithful(b) && c.Refuse?
    ensures Faithful(Next(b, c)) <==>
              var now := StateIn(b.current, c.signal);
              !Marked(RefusalMove(c).reason) || now == Some(Rejected) || !Legal(now, Rejected)
  {
    MoveIsFaithfulIff(Refusing(b, c), RefusalMove(c));
  }

  /** A rejection code equal to the marker's name does just that. */
  lemma BorrowedMarkerBreaksReplay(b: Book, signal: string, text: string, drawn: string)
    requires Faithful(b) && StateIn(b.current, signal) == Some(Watching)
    ensures !Faithful(Next(b, Refuse(signal, "ILLEGAL_TRANSITION", text, drawn)))
  {
    var c := Refuse(signal, "ILLEGAL_TRANSITION", text, drawn);
    assert RefusalMove(c).reason == ILLEGAL + text;
    RefusalIsFaithfulIff(b, c);
  }

  // ---- Terminal states ----

  /** A terminal state survives every call that leaves the origin to the ledger; one that supplies
      its own origin gets out exactly when the table allows the supplied move. */
  lemma TerminalStepIff(b: Book, c: Call)
    requires StateIn(b.current, c.signal).Some? && Terminal(b.current[c.signal])
    ensures StateIn(Next(b, c).current, c.signal) == StateIn(b.current, c.signal) <==>
              !(c.Move? && c.from.Some? && Allowed(c.from, c.to) && c.to != b.current[c.signal])
  {
  }

  /** Other signals are never touched, and a removal needs a stated end. */
  lemma StepOfSignal(b: Book, c: Call, signal: string)
    requires c.Move? ==> c.from.None?
    ensures var was, now := StateIn(b.current, signal), StateIn(Next(b, c).current, signal);
            now == was || (now.Some? && Legal(was, now.value))
  {
  }

  lemma TerminalStays(b: Book, c: Call, signal: string)
    requires c.Move? ==> c.from.None?
    requires var s := StateIn(b.current, signal); s.Some? && Terminal(s.value)
    ensures StateIn(Next(b, c).current, signal) == StateIn(b.current, signal)
  {
    StepOfSignal(b, c, signal);
  }

  lemma {:induction false} TerminalIsAbsorbing(calls: seq<Call>, n: nat, signal: string)
    requires n <= |calls| && forall c :: c in calls ==> c.Move? ==> c.from.None?
    requires var s := StateIn(Run(calls[..n]).current, signal); s.Some? && Terminal(s.value)
    ensures StateIn(Run(calls).current, signal) == StateIn(Run(calls[..n]).current, signal)
  {
    if n < |calls| {
      var front := calls[..|calls| - 1];
      assert front[..n] == calls[..n];
      TerminalIsAbsorbing(front, n, signal);
      TerminalStays(Run(front), calls[|calls| - 1], signal);
    } else {
      assert calls[..n] == calls;
    }
  }

  /** A signal is removed only after something has said why it stopped being watched. */
  lemma RemovedOnlyFromAnEnd(b: Book, c: Call, signal: string)
    requires c.Move? ==> c.from.None?
    requires StateIn(Next(b, c).current, signal) == Some(Removed) && StateIn(b.current, signal) != Some(Removed)
    ensures var s := StateIn(b.current, signal);
            s.Some? && (s.value.Invalidated? || s.value.Rejected? || s.value.Cancelled? || s.value.Expired?
                || s.value.Error?)
  {
    StepOfSignal(b, c, signal);
  }

  // ---- Correlation ----

  ghost predicate Correlated(b: Book) {
    && (forall e :: e in b.entries ==> e.signal in b.correlations && e.correlation == b.correlations[e.signal])
    && (forall r :: r in b.refusals ==> r.signal in b.correlations && r.correlation == b.correlations[r.signal])
  }

  lemma LogCorrelates(b: Book, signal: string, from: Option<State>, to: State, reason: string, drawn: string)
    requires Correlated(b)
    ensures Correlated(Log(b, signal, from, to, reason, drawn))
  {
  }

  /** All rows and rejections of one signal carry one correlation id. */
  lemma {:induction false} OneCorrelationPerSignal(calls: seq<Call>)
    ensures Correlated(Run(calls))
  {
    if |calls| > 0 {
      OneCorrelationPerSignal(calls[..|calls| - 1]);
      NextCorrelates(Run(calls[..|calls| - 1]), calls[|calls| - 1]);
    }
  }

  lemma NextCorrelates(b: Book, c: Call)
    requires Correlated(b)
    ensures Correlated(Next(b, c))
  {
    if c.Move? {
      MovedCorrelates(b, c);
    } else {
      MovedCorrelates(Refusing(b, c), RefusalMove(c));
    }
  }

  lemma MovedCorrelates(b: Book, c: Call)
    requires Correlated(b) && c.Move?
    ensures Correlated(Moved(b, c))
  {
    var origin := Origin(b, c.signal, c.from);
    LogCorrelates(b, c.signal, origin, c.to, c.reason, c.drawn);
    LogCorrelates(b, c.signal, origin, Error, ILLEGAL + c.reason, c.drawn);
    LogCorrelates(Noted(b, c.signal, origin, c.reason, c.drawn), c.signal, origin, c.to, c.reason, c.drawn);
  }
}
