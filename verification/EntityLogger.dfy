/**
 * The buffered entity logger. Appenders never wait; savers suspend only at await points,
 * so a run is an interleaving of the atomic sections between them. The save lock is what
 * keeps two savers from working on the buffers at once.
 */
module EntityLogger {
  import opened Common

  datatype Level = Header | Info | Warn | Error | Debug
  datatype Log = Log(data: string, level: Level)
  datatype Message = Message(data: string, level: Level)

  /** The two lists an EntityLogger buffers. */
  datatype Buffers = Buffers(logs: seq<Log>, messages: seq<Message>)

  /** What one call to append_log adds; an empty string adds nothing. */
  function LogsOf(data: string, level: Level): seq<Log> {
    if data == "" then [] else [Log(data, level)]
  }

  function MessagesOf(data: string, level: Level): seq<Message> {
    if data == "" then [] else [Message(data, level)]
  }

  /** Where saved logs and sent messages end up. */
  class Sinks {
    var persisted: seq<Log>
    var sent: seq<Message>
  }

  class Logger {
    var bulkLogsOperations: seq<Log>
    var messages: seq<Message>

    constructor ()
      ensures Buffered() == Buffers([], [])
    {
      bulkLogsOperations, messages := [], [];
    }

    function Buffered(): Buffers
      reads this
    {
      Buffers(bulkLogsOperations, messages)
    }

    method AppendLog(data: string, level: Level)
      modifies this
      ensures data == "" ==> Buffered() == old(Buffered())
      ensures data != "" ==> Buffered() == Buffers(old(bulkLogsOperations) + [Log(data, level)], old(messages) + [Message(data, level)])
      ensures Buffered() == Buffers(old(bulkLogsOperations) + LogsOf(data, level), old(messages) + MessagesOf(data, level))
    {
      if data == "" {
        return;
      }
      bulkLogsOperations := bulkLogsOperations + [Log(data, level)];
      messages := messages + [Message(data, level)];
    }

    /** Headers are logged but not sent, and are not checked for being empty. */
    method AddLogHeader(data: string)
      modifies this
      ensures Buffered() == Buffers(old(bulkLogsOperations) + [Log(data, Header)], old(messages))
    {
      bulkLogsOperations := bulkLogsOperations + [Log(data, Header)];
    }

    /** The hand-off: the session takes the list and the logger starts a new one, without a pause. */
    method HandOff() returns (batch: seq<Log>)
      modifies this
      ensures batch == old(bulkLogsOperations)
      ensures Buffered() == Buffers([], old(messages))
    {
      batch := bulkLogsOperations;
      bulkLogsOperations := [];
    }

    method SendMessages(sinks: Sinks)
      modifies this, sinks
      ensures sinks.sent == old(sinks.sent) + old(messages) && sinks.persisted == old(sinks.persisted)
      ensures Buffered() == Buffers(old(bulkLogsOperations), [])
    {
      var i := 0;
      while i < |messages|
        invariant i <= |messages|
        invariant Buffered() == old(Buffered()) && sinks.persisted == old(sinks.persisted)
        invariant sinks.sent == old(sinks.sent) + messages[..i]
      {
        sinks.sent := sinks.sent + [messages[i]];
        i := i + 1;
      }
      messages := [];
    }

    /** save_log when nothing else runs in between. */
    method SaveLog(sinks: Sinks)
      modifies this, sinks
      ensures sinks.persisted == old(sinks.persisted) + old(bulkLogsOperations)
      ensures sinks.sent == old(sinks.sent) + old(messages)
      ensures Buffered() == Buffers([], [])
    {
      if bulkLogsOperations != [] {
        var batch := HandOff();
        sinks.persisted := sinks.persisted + batch;
      }
      SendMessages(sinks);
    }
  }

  type Task = nat

  /**
   * Where a call to save_log stands. called is the number of logs appended before the call,
   * mark the number appended before the buffer was handed off (or found empty).
   */
  datatype Progress =
    | Waiting(called: nat)                               // at the lock
    | Opening(called: nat)                               // holding the lock, opening a session
    | Committing(called: nat, mark: nat, batch: seq<Log>)
    | Sending(called: nat, mark: nat, next: nat)         // iterating over the live message list

  datatype World = World(
    buffers: Buffers,
    holder: Option<Task>,
    savers: map<Task, Progress>,
    persisted: seq<Log>,
    sent: seq<Message>,
    logged: seq<Log>,         // everything ever logged, in order
    announced: seq<Message>)  // every message ever created, in order

  datatype Event =
    | Append(data: string, level: Level)
    | AddHeader(data: string)
    | Call(task: Task)
    | Acquire(task: Task)
    | Open(task: Task)
    | Commit(task: Task)
    | Send(task: Task)
    | Finish(task: Task)

  const Start: World := World(Buffers([], []), None, map[], [], [], [], [])

  function Extend(w: World, logs: seq<Log>, messages: seq<Message>): World {
    w.(buffers := Buffers(w.buffers.logs + logs, w.buffers.messages + messages),
       logged := w.logged + logs, announced := w.announced + messages)
  }

  function Move(w: World, task: Task, p: Progress): World {
    w.(savers := w.savers[task := p])
  }

  /** The first thing done under the lock: look whether there is anything to save. */
  function Enter(w: World, task: Task, called: nat): World {
    Move(w, task, if w.buffers.logs != [] then Opening(called) else Sending(called, |w.logged|, 0))
  }

  /** One atomic section; an event that is not possible changes nothing. */
  function Next(w: World, event: Event): World {
    match event
    case Append(data, level) => Extend(w, LogsOf(data, level), MessagesOf(data, level))
    case AddHeader(data) => Extend(w, [Log(data, Header)], [])
    case Call(task) => if task in w.savers then w else Move(w, task, Waiting(|w.logged|))
    case Acquire(task) =>
      if task in w.savers && w.savers[task].Waiting? && w.holder == None
      then Enter(w.(holder := Some(task)), task, w.savers[task].called)
      else w
    case Open(task) =>
      if task in w.savers && w.savers[task].Opening?
      then Move(w.(buffers := w.buffers.(logs := [])), task,
                Committing(w.savers[task].called, |w.logged|, w.buffers.logs))
      else w
    case Commit(task) =>
      if task in w.savers && w.savers[task].Committing?
      then var saver := w.savers[task];
           Move(w.(persisted := w.persisted + saver.batch), task, Sending(saver.called, saver.mark, 0))
      else w
    case Send(task) =>
      if task in w.savers && w.savers[task].Sending? && w.savers[task].next < |w.buffers.messages|
      then var saver := w.savers[task];
           Move(w.(sent := w.sent + [w.buffers.messages[saver.next]]), task, saver.(next := saver.next + 1))
      else w
    case Finish(task) =>
      if Finishing(w, task)
      then w.(buffers := w.buffers.(messages := []), holder := None, savers := w.savers - {task})
      else w
  }

  /** The iteration over the live list has come to its end, so the save is about to return. */
  predicate Finishing(w: World, task: Task) {
    task in w.savers && w.savers[task].Sending? && w.savers[task].next >= |w.buffers.messages|
  }

  function Run(w: World, events: seq<Event>): World {
    if events == [] then w else Next(Run(w, events[..|events| - 1]), events[|events| - 1])
  }

  /** Logs on their way to the database. */
  function InFlight(w: World): seq<Log> {
    if w.holder.Some? && w.holder.value in w.savers && w.savers[w.holder.value].Committing?
    then w.savers[w.holder.value].batch else []
  }

  /** How many of the buffered messages the current iteration has already sent. */
  function SentSoFar(w: World): nat {
    if w.holder.Some? && w.holder.value in w.savers && w.savers[w.holder.value].Sending?
    then w.savers[w.holder.value].next else 0
  }

  /** Only the holder of the lock is past it. */
  predicate Exclusive(w: World) {
    && (w.holder.Some? ==> w.holder.value in w.savers && !w.savers[w.holder.value].Waiting?)
    && forall task :: task in w.savers && !w.savers[task].Waiting? ==> w.holder == Some(task)
  }

  /** Nothing is lost, duplicated or reordered. */
  predicate Conserved(w: World) {
    && w.persisted + InFlight(w) + w.buffers.logs == w.logged
    && SentSoFar(w) <= |w.buffers.messages|
    && w.sent + w.buffers.messages[SentSoFar(w)..] == w.announced
  }

  /** What each pending save has already achieved. */
  predicate OnTrack(w: World) {
    forall task :: task in w.savers ==>
      match w.savers[task]
      case Waiting(called) => called <= |w.logged|
      case Opening(called) => called <= |w.logged|
      case Committing(called, mark, batch) => called <= mark && mark == |w.persisted| + |batch|
      case Sending(called, mark, next) => called <= mark && mark == |w.persisted|
  }

  predicate Inv(w: World) {
    Exclusive(w) && Conserved(w) && OnTrack(w)
  }

  lemma NextKeepsExclusive(w: World, event: Event)
    requires Exclusive(w)
    ensures Exclusive(Next(w, event))
  {
  }

  lemma NextKeepsConserved(w: World, event: Event)
    requires Exclusive(w) && Conserved(w)
    ensures Conserved(Next(w, event))
  {
    match event {
      case Append(data, level) => ExtendKeepsConserved(w, LogsOf(data, level), MessagesOf(data, level));
      case AddHeader(data) => ExtendKeepsConserved(w, [Log(data, Header)], []);
      case Send(task) => SendKeepsConserved(w, task);
      case Call(task) => SaverKeepsConserved(w, event);
      case Acquire(task) => SaverKeepsConserved(w, event);
      case Open(task) => SaverKeepsConserved(w, event);
      case Commit(task) => SaverKeepsConserved(w, event);
      case Finish(task) => FinishKeepsConserved(w, task);
    }
  }

  lemma ExtendKeepsConserved(w: World, logs: seq<Log>, messages: seq<Message>)
    requires Conserved(w)
    ensures Conserved(Extend(w, logs, messages))
  {
    var sent := SentSoFar(w);
    assert (w.buffers.messages + messages)[sent..] == w.buffers.messages[sent..] + messages;
  }

  /** The events of a save in which no message is sent or dropped. */
  lemma SaverKeepsConserved(w: World, event: Event)
    requires Exclusive(w) && Conserved(w)
    requires event.Call? || event.Acquire? || event.Open? || event.Commit?
    ensures Conserved(Next(w, event))
  {
  }

  lemma FinishKeepsConserved(w: World, task: Task)
    requires Exclusive(w) && Conserved(w)
    ensures Conserved(Next(w, Finish(task)))
  {
  }

  lemma SendKeepsConserved(w: World, task: Task)
    requires Exclusive(w) && Conserved(w)
    ensures Conserved(Next(w, Send(task)))
  {
    if Next(w, Send(task)) != w {
      var next := w.savers[task].next;
      assert w.buffers.messages[next..] == [w.buffers.messages[next]] + w.buffers.messages[next + 1..];
    }
  }

  lemma NextKeepsOnTrack(w: World, event: Event)
    requires Inv(w)
    ensures OnTrack(Next(w, event))
  {
  }

  lemma {:induction false} RunKeepsInv(events: seq<Event>)
    ensures Inv(Run(Start, events))
  {
    if events != [] {
      var before := Run(Start, events[..|events| - 1]);
      RunKeepsInv(events[..|events| - 1]);
      NextKeepsExclusive(before, events[|events| - 1]);
      NextKeepsConserved(before, events[|events| - 1]);
      NextKeepsOnTrack(before, events[|events| - 1]);
    }
  }

  /** What the appenders alone produced, savers ignored. */
  function AllLogs(events: seq<Event>): seq<Log> {
    if events == [] then []
    else
      AllLogs(events[..|events| - 1]) +
      match events[|events| - 1]
      case Append(data, level) => LogsOf(data, level)
      case AddHeader(data) => [Log(data, Header)]
      case _ => []
  }

  function AllMessages(events: seq<Event>): seq<Message> {
    if events == [] then []
    else
      AllMessages(events[..|events| - 1]) +
      match events[|events| - 1]
      case Append(data, level) => MessagesOf(data, level)
      case _ => []
  }

  lemma {:induction false} HistoryIsAppended(events: seq<Event>)
    ensures Run(Start, events).logged == AllLogs(events)
    ensures Run(Start, events).announced == AllMessages(events)
  {
    if events != [] {
      HistoryIsAppended(events[..|events| - 1]);
      HistoryGrows(Run(Start, events[..|events| - 1]), events[|events| - 1]);
    }
  }

  lemma HistoryGrows(w: World, event: Event)
    ensures var w' := Next(w, event);
            match event
            case Append(data, level) => w'.logged == w.logged + LogsOf(data, level) && w'.announced == w.announced + MessagesOf(data, level)
            case AddHeader(data) => w'.logged == w.logged + [Log(data, Header)] && w'.announced == w.announced
            case _ => w'.logged == w.logged && w'.announced == w.announced
  {
    assert w.announced + [] == w.announced;
  }

  /**
   * In every interleaving: persisted, in-flight and buffered logs are all logs in append order,
   * and the sent messages followed by the unsent tail are all messages in order, each once.
   */
  lemma NothingLostOrRepeated(events: seq<Event>)
    ensures var w := Run(Start, events);
            && w.persisted + InFlight(w) + w.buffers.logs == AllLogs(events)
            && SentSoFar(w) <= |w.buffers.messages|
            && w.sent + w.buffers.messages[SentSoFar(w)..] == AllMessages(events)
  {
    RunKeepsInv(events);
    HistoryIsAppended(events);
  }

  /**
   * When a save returns, every message has been sent and the message list is empty, everything
   * logged before the call is persisted, and the log buffer holds just what came after the hand-off.
   */
  lemma SaveIsComplete(events: seq<Event>, task: Task)
    requires Finishing(Run(Start, events), task)
    ensures var before := Run(Start, events);
            var w := Next(before, Finish(task));
            && w.buffers.messages == [] && w.sent == AllMessages(events)
            && before.savers[task].called <= before.savers[task].mark <= |AllLogs(events)|
            && w.persisted == AllLogs(events)[..before.savers[task].mark]
            && w.buffers.logs == AllLogs(events)[before.savers[task].mark..]
  {
    RunKeepsInv(events);
    HistoryIsAppended(events);
  }

  /** Saver a has persisted the only log and is about to send its message; saver b waits at the lock. */
  lemma SecondSaverWaits(data: string, level: Level, a: Task, b: Task) returns (w: World)
    requires a != b && data != ""
    ensures w == Next(Next(Next(Next(Next(Next(Start, Append(data, level)), Call(a)), Call(b)), Acquire(a)), Open(a)), Commit(a))
    ensures w == World(Buffers([], [Message(data, level)]), Some(a), map[a := Sending(1, 1, 0), b := Waiting(1)],
                       [Log(data, level)], [], [Log(data, level)], [Message(data, level)])
  {
    var log, message := Log(data, level), Message(data, level);
    var w1 := World(Buffers([log], [message]), None, map[], [], [], [log], [message]);
    var w3 := w1.(savers := map[a := Waiting(1), b := Waiting(1)]);
    var w4 := w3.(savers := map[a := Opening(1), b := Waiting(1)], holder := Some(a));
    var w5 := w4.(savers := map[a := Committing(1, 1, [log]), b := Waiting(1)], buffers := Buffers([], [message]));
    assert Next(Start, Append(data, level)) == w1;
    assert Next(Next(w1, Call(a)), Call(b)) == w3;
    assert Next(w3, Acquire(a)) == w4;
    assert Next(w4, Open(a)) == w5;
    w := Next(w5, Commit(a));
  }

  /** Were b not held up by the lock there, the message would go out twice. */
  lemma LockIsNeeded(data: string, level: Level, a: Task, b: Task)
    requires a != b && data != ""
    ensures var w := Next(Next(Next(Next(Next(Next(Start, Append(data, level)), Call(a)), Call(b)), Acquire(a)), Open(a)), Commit(a));
            Next(Next(Enter(w, b, 1), Send(a)), Send(b)).sent == [Message(data, level), Message(data, level)]
  {
    var w := SecondSaverWaits(data, level, a, b);
    var both := map[a := Sending(1, 1, 0), b := Sending(1, 1, 0)];
    assert Enter(w, b, 1).savers == both;
    BothSend(Enter(w, b, 1), a, b, Message(data, level));
  }

  lemma BothSend(w: World, a: Task, b: Task, message: Message)
    requires a != b && w.savers == map[a := Sending(1, 1, 0), b := Sending(1, 1, 0)]
    requires w.buffers.messages == [message] && w.sent == []
    ensures Next(Next(w, Send(a)), Send(b)).sent == [message, message]
  {
    var w1 := Next(w, Send(a));
    assert w1.sent == [message] && w1.savers[b] == Sending(1, 1, 0) && w1.buffers == w.buffers;
  }

  lemma RunConcat(w: World, a: seq<Event>, b: seq<Event>)
    ensures Run(w, a + b) == Run(Run(w, a), b)
  {
    if b == [] {
      assert a + b == a;
    } else {
      assert (a + b)[..|a + b| - 1] == a + b[..|b| - 1];
      RunConcat(w, a, b[..|b| - 1]);
    }
  }

  lemma RunOne(w: World, event: Event, events: seq<Event>)
    ensures Run(w, [event] + events) == Run(Next(w, event), events)
  {
    RunConcat(w, [event], events);
    assert [event][..0] == [];
  }

  /** How far a save that holds the lock is from its end. */
  function StepsLeft(w: World, task: Task): nat
    requires task in w.savers
  {
    match w.savers[task]
    case Waiting(_) => 0
    case Opening(_) => |w.buffers.messages| + 3
    case Committing(_, _, _) => |w.buffers.messages| + 2
    case Sending(_, _, next) => if next < |w.buffers.messages| then |w.buffers.messages| - next + 1 else 1
  }

  /** Whoever holds the lock can go on to its end, with all messages sent. */
  lemma {:induction false} SaveCanFinish(w: World, task: Task) returns (events: seq<Event>)
    requires Inv(w) && w.holder == Some(task)
    ensures var w' := Run(w, events);
            && task !in w'.savers && w'.holder == None && w'.buffers.messages == [] && w'.sent == w'.announced == w.announced
    decreases StepsLeft(w, task)
  {
    var event := match w.savers[task]
      case Opening(_) => Open(task)
      case Committing(_, _, _) => Commit(task)
      case _ => if Finishing(w, task) then Finish(task) else Send(task);
    var w' := Next(w, event);
    NextKeepsExclusive(w, event);
    NextKeepsConserved(w, event);
    NextKeepsOnTrack(w, event);
    if event.Finish? {
      events := [event] + [];
      RunOne(w, event, []);
    } else {
      var rest := SaveCanFinish(w', task);
      events := [event] + rest;
      RunOne(w, event, rest);
    }
  }
}
