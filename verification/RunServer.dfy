/** The async run server as a state machine: handlers and background executors
    interleave only where they await, so each stretch between awaits is one step. */
module RunServer {
  import opened Wrappers

  datatype Role = User | Assistant

  datatype Message = Message(role: Role, content: string)

  /** A row of `threads`; `values` is empty or the stored snapshot of the messages. */
  datatype Thread = Thread(messages: seq<Message>, values: Option<seq<Message>>)

  datatype Status = Pending | Running | Success | Error | Cancelled

  /** A row of `runs`. */
  datatype RunRow = RunRow(thread: string, status: Status)

  /** Where a background executor stands. */
  datatype Phase = Queued | Invoking | Done

  datatype Task = Task(thread: string, phase: Phase)

  /** The two tables, the requests suspended while reading their body (by the thread
      they found), and the background tasks. */
  datatype State = State(
    threads: map<string, Thread>, runs: map<string, RunRow>,
    waiting: map<int, string>, tasks: map<string, Task>)

  const INITIAL := State(map[], map[], map[], map[])

  /** One await-free stretch.  Identifiers are fresh UUIDs; `request` names a call.  A
      body that turns out unusable aborts its request with what was stored before: nothing,
      the interrupt, and the user message when there was one (empty stands for none). */
  datatype Step =
    | CreateThread(thread: string)
    | BeginCreateRun(request: int, thread: string)
    | FinishCreateRun(request: int, run: string, interrupt: bool, userMessage: string)
    | AbortCreateRun(request: int, interrupt: bool, userMessage: string)
    | StartRun(run: string)
    | CompleteRun(run: string, output: string)
    | FailRun(run: string)
    | CancelRun(thread: string, run: string)

  predicate Enabled(s: State, step: Step) {
    match step
    case CreateThread(t) => t !in s.threads
    case BeginCreateRun(q, _) => q !in s.waiting
    case FinishCreateRun(q, r, _, _) => q in s.waiting && r !in s.runs
    case AbortCreateRun(q, _, _) => q in s.waiting
    case StartRun(r) => r in s.tasks && s.tasks[r].phase.Queued?
    case CompleteRun(r, _) => r in s.tasks && s.tasks[r].phase.Invoking?
    case FailRun(r) => r in s.tasks && s.tasks[r].phase.Invoking?
    case CancelRun(_, _) => true
  }

  function WithStatus(runs: map<string, RunRow>, r: string, status: Status): map<string, RunRow> {
    if r in runs then runs[r := runs[r].(status := status)] else runs
  }

  /** `UPDATE runs SET status = 'cancelled' WHERE thread_id = ? AND status = 'running'` */
  function CancelRunning(runs: map<string, RunRow>, t: string): map<string, RunRow> {
    map r | r in runs ::
      if runs[r].thread == t && runs[r].status.Running? then runs[r].(status := Cancelled) else runs[r]
  }

  /** The stored messages; the fallback for a missing row is never taken (NoRowIsMissing). */
  function MessagesOf(threads: map<string, Thread>, t: string): seq<Message> {
    if t in threads then threads[t].messages else []
  }

  /** `UPDATE threads ... WHERE thread_id = ?`: without a row, nothing happens. */
  function WithMessages(threads: map<string, Thread>, t: string, messages: seq<Message>): map<string, Thread> {
    if t in threads then threads[t := threads[t].(messages := messages)] else threads
  }

  function WithValues(threads: map<string, Thread>, t: string, values: Option<seq<Message>>): map<string, Thread> {
    if t in threads then threads[t := threads[t].(values := values)] else threads
  }

  /** The effect of `multitask_strategy == "interrupt"`. */
  function Interrupted(s: State, t: string): State {
    s.(runs := CancelRunning(s.runs, t), threads := WithValues(s.threads, t, None))
  }

  /** What a request finds once its body has been read and its strategy applied. */
  function Ready(s: State, t: string, interrupt: bool): State {
    if interrupt then Interrupted(s, t) else s
  }

  /** Storing the user message, if there is one. */
  function Noted(s: State, t: string, userMessage: string): State {
    if userMessage == "" then s else
    s.(threads := WithMessages(s.threads, t, MessagesOf(s.threads, t) + [Message(User, userMessage)]))
  }

  /** Storing a user message and inserting the run that will answer it. */
  function Submitted(s: State, t: string, r: string, userMessage: string): State {
    Noted(s, t, userMessage).(runs := s.runs[r := RunRow(t, Pending)], tasks := s.tasks[r := Task(t, Queued)])
  }

  /** Storing the agent's reply, twice: in the messages and in the snapshot. */
  function Answered(s: State, t: string, output: string): State {
    var messages := MessagesOf(s.threads, t) + [Message(Assistant, output)];
    s.(threads := WithValues(WithMessages(s.threads, t, messages), t, Some(messages)))
  }

  function Moved(s: State, r: string, status: Status, phase: Phase): State
    requires r in s.tasks
  {
    s.(runs := WithStatus(s.runs, r, status), tasks := s.tasks[r := s.tasks[r].(phase := phase)])
  }

  function After(s: State, step: Step): State
    requires Enabled(s, step)
  {
    match step
    case CreateThread(t) => s.(threads := s.threads[t := Thread([], None)])
    case BeginCreateRun(q, t) => if t in s.threads then s.(waiting := s.waiting[q := t]) else s
    case FinishCreateRun(q, r, interrupt, userMessage) =>
      Submitted(Ready(s, s.waiting[q], interrupt), s.waiting[q], r, userMessage).(waiting := s.waiting - {q})
    case AbortCreateRun(q, interrupt, userMessage) =>
      Noted(Ready(s, s.waiting[q], interrupt), s.waiting[q], userMessage).(waiting := s.waiting - {q})
    case StartRun(r) => Moved(s, r, Running, Invoking)
    case CompleteRun(r, output) => Moved(Answered(s, s.tasks[r].thread, output), r, Success, Done)
    case FailRun(r) => Moved(s, r, Error, Done)
    case CancelRun(t, r) =>
      if r in s.runs && s.runs[r].thread == t then s.(runs := WithStatus(s.runs, r, Cancelled)) else s
  }

  // ---- Interleavings ----

  /** Every step was enabled when it was taken. */
  predicate Possible(steps: seq<Step>)
    decreases |steps|, 0
  {
    steps == [] || (Possible(steps[..|steps| - 1]) && Enabled(Reached(steps[..|steps| - 1]), steps[|steps| - 1]))
  }

  function Reached(steps: seq<Step>): State
    requires Possible(steps)
    decreases |steps|, 1
  {
    if steps == [] then INITIAL else After(Reached(steps[..|steps| - 1]), steps[|steps| - 1])
  }

  /** What one step adds to a thread, read off the steps alone: a user message posted,
      or the reply of an execution that completed. */
  datatype Entry = Posted(thread: string, message: Message) | Replied(run: string, thread: string, message: Message)

  function EntryOf(s: State, step: Step): (more: seq<Entry>)
    requires Enabled(s, step)
    ensures |more| <= 1
  {
    match step
    case FinishCreateRun(q, _, _, userMessage) =>
      if userMessage != "" then [Posted(s.waiting[q], Message(User, userMessage))] else []
    case AbortCreateRun(q, _, userMessage) =>
      if userMessage != "" then [Posted(s.waiting[q], Message(User, userMessage))] else []
    case CompleteRun(r, output) => [Replied(r, s.tasks[r].thread, Message(Assistant, output))]
    case _ => []
  }

  /** The message a step adds to thread `t`, if any. */
  function Added(s: State, step: Step, t: string): seq<Message>
    requires Enabled(s, step)
  {
    var more := EntryOf(s, step);
    if more != [] && more[0].thread == t then [more[0].message] else []
  }

  function Log(steps: seq<Step>): seq<Entry>
    requires Possible(steps)
  {
    if steps == [] then [] else
    Log(steps[..|steps| - 1]) + EntryOf(Reached(steps[..|steps| - 1]), steps[|steps| - 1])
  }

  /** The messages a log gives a thread. */
  function Transcript(log: seq<Entry>, t: string): seq<Message> {
    if log == [] then [] else
    Transcript(log[..|log| - 1], t) + if log[|log| - 1].thread == t then [log[|log| - 1].message] else []
  }

  function Count(log: seq<Entry>, t: string, replies: bool): nat {
    if log == [] then 0 else
    Count(log[..|log| - 1], t, replies) +
      if log[|log| - 1].thread == t && log[|log| - 1].Replied? == replies then 1 else 0
  }

  lemma {:induction false} TranscriptLength(log: seq<Entry>, t: string)
    ensures |Transcript(log, t)| == Count(log, t, false) + Count(log, t, true)
  {
    if log != [] { TranscriptLength(log[..|log| - 1], t); }
  }

  lemma {:induction false} LoggedIsInThread(log: seq<Entry>, k: nat)
    requires k < |log|
    ensures log[k].message in Transcript(log, log[k].thread)
  {
    if k < |log| - 1 { LoggedIsInThread(log[..|log| - 1], k); }
  }

  lemma TranscriptPush(log: seq<Entry>, more: seq<Entry>, t: string)
    requires |more| <= 1
    ensures Transcript(log + more, t) ==
            Transcript(log, t) + if more != [] && more[0].thread == t then [more[0].message] else []
  {
    if more == [] {
      assert log + more == log;
    } else {
      assert (log + more)[..|log|] == log;
    }
  }

  // ---- What every interleaving keeps ----

  /** A run has replied to its thread. */
  ghost predicate HasReplied(log: seq<Entry>, r: string, t: string) {
    exists k :: 0 <= k < |log| && log[k].Replied? && log[k].run == r && log[k].thread == t
  }

  /** What a log says of a thread table: the messages are exactly what was posted and
      replied, in that order, and every thread written to exists. */
  ghost predicate Written(threads: map<string, Thread>, log: seq<Entry>) {
    && (forall t :: t in threads ==> threads[t].messages == Transcript(log, t))
    && (forall k :: 0 <= k < |log| ==> log[k].thread in threads)
  }

  /** The snapshot is empty or a prefix of the messages. */
  ghost predicate Snapshots(threads: map<string, Thread>) {
    forall t :: t in threads && threads[t].values.Some? ==> threads[t].values.value <= threads[t].messages
  }

  /** The statuses a run can have at each point of its execution: cancelling overwrites
      the status at any time and the executor overwrites it back, but no further. */
  predicate StatusFits(status: Status, phase: Phase) {
    status.Cancelled? ||
    match phase
    case Queued => status.Pending?
    case Invoking => status.Running?
    case Done => status.Success? || status.Error?
  }

  /** Every run, task and suspended request refers to an existing thread. */
  ghost predicate Referenced(s: State) {
    && s.runs.Keys == s.tasks.Keys
    && (forall r :: r in s.runs ==>
          s.runs[r].thread in s.threads && s.tasks[r].thread == s.runs[r].thread
          && StatusFits(s.runs[r].status, s.tasks[r].phase))
    && (forall q :: q in s.waiting ==> s.waiting[q] in s.threads)
  }

  /** Each run replies at most once and only by completing, and a successful run has. */
  ghost predicate Replies(s: State, log: seq<Entry>) {
    && (forall r :: r in s.runs && s.runs[r].status.Success? ==> HasReplied(log, r, s.runs[r].thread))
    && (forall k :: 0 <= k < |log| && log[k].Replied? ==>
          log[k].run in s.tasks && s.tasks[log[k].run].phase.Done? && log[k].thread == s.tasks[log[k].run].thread)
    && (forall j, k :: 0 <= j < k < |log| && log[j].Replied? && log[k].Replied? ==> log[j].run != log[k].run)
  }

  ghost predicate Kept(s: State, log: seq<Entry>) {
    Written(s.threads, log) && Snapshots(s.threads) && Referenced(s) && Replies(s, log)
  }

  /** No thread is ever dropped, and a thread gains at most the one message the step logs. */
  lemma StepAppends(s: State, step: Step, t: string)
    requires Referenced(s) && Enabled(s, step)
    ensures t in s.threads ==> t in After(s, step).threads
    ensures MessagesOf(After(s, step).threads, t) == MessagesOf(s.threads, t) + Added(s, step, t)
    ensures EntryOf(s, step) != [] ==> EntryOf(s, step)[0].thread in s.threads
  {
    hide CancelRunning, WithStatus, StatusFits, Noted, Interrupted, Answered;
    EditsAppend(s, t);
    if step.FinishCreateRun? { EditsAppend(Ready(s, s.waiting[step.request], step.interrupt), t); }
    if step.AbortCreateRun? { EditsAppend(Ready(s, s.waiting[step.request], step.interrupt), t); }
    var messages := MessagesOf(s.threads, t);
    assert messages + [] == messages;
  }

  /** What writing to a thread adds to the messages of `t`. */
  lemma EditsAppend(s: State, t: string)
    ensures forall u, m :: Noted(s, u, m).threads.Keys == s.threads.Keys
    ensures forall u, m :: Answered(s, u, m).threads.Keys == s.threads.Keys
    ensures forall u :: Interrupted(s, u).threads.Keys == s.threads.Keys
    ensures forall u, m :: u in s.threads ==>
      MessagesOf(Noted(s, u, m).threads, t)
      == MessagesOf(s.threads, t) + (if u == t && m != "" then [Message(User, m)] else [])
    ensures forall u, m :: u in s.threads ==>
      MessagesOf(Answered(s, u, m).threads, t)
      == MessagesOf(s.threads, t) + (if u == t then [Message(Assistant, m)] else [])
    ensures forall u :: MessagesOf(Interrupted(s, u).threads, t) == MessagesOf(s.threads, t)
  {
    hide CancelRunning;
  }

  lemma WrittenKeeps(s: State, log: seq<Entry>, step: Step)
    requires Kept(s, log) && Enabled(s, step)
    ensures Written(After(s, step).threads, log + EntryOf(s, step))
  {
    hide After, Transcript, Snapshots, Replies, EntryOf;
    var s', more := After(s, step), EntryOf(s, step);
    forall t ensures t in s'.threads ==> s'.threads[t].messages == Transcript(log + more, t) {
      StepAppends(s, step, t);
      TranscriptPush(log, more, t);
      if t !in s.threads { TranscriptOfNoOne(log, t); }
    }
    forall k | 0 <= k < |log + more| ensures (log + more)[k].thread in s'.threads {
      StepAppends(s, step, (log + more)[k].thread);
    }
  }

  lemma {:induction false} TranscriptOfNoOne(log: seq<Entry>, t: string)
    requires forall k :: 0 <= k < |log| ==> log[k].thread != t
    ensures Transcript(log, t) == []
  {
    if log != [] { TranscriptOfNoOne(log[..|log| - 1], t); }
  }

  lemma ReadySnapshots(s: State, t: string, interrupt: bool)
    requires Snapshots(s.threads)
    ensures Snapshots(Ready(s, t, interrupt).threads)
  {
    hide CancelRunning;
  }

  lemma NotedSnapshots(s: State, t: string, userMessage: string)
    requires Snapshots(s.threads)
    ensures Snapshots(Noted(s, t, userMessage).threads)
  {
  }

  lemma AnsweredSnapshots(s: State, t: string, output: string)
    requires Snapshots(s.threads)
    ensures Snapshots(Answered(s, t, output).threads)
  {
  }

  lemma SnapshotsKeep(s: State, log: seq<Entry>, step: Step)
    requires Kept(s, log) && Enabled(s, step)
    ensures Snapshots(After(s, step).threads)
  {
    hide Transcript, Written, Replies, Referenced, WithStatus, Ready, Noted, Answered;
    match step
    case FinishCreateRun(q, r, interrupt, userMessage) =>
      ReadySnapshots(s, s.waiting[q], interrupt);
      NotedSnapshots(Ready(s, s.waiting[q], interrupt), s.waiting[q], userMessage);
    case AbortCreateRun(q, interrupt, userMessage) =>
      ReadySnapshots(s, s.waiting[q], interrupt);
      NotedSnapshots(Ready(s, s.waiting[q], interrupt), s.waiting[q], userMessage);
    case CompleteRun(r, output) => AnsweredSnapshots(s, s.tasks[r].thread, output);
    case _ =>
  }

  lemma ReadyKeeps(s: State, t: string, interrupt: bool)
    requires Referenced(s)
    ensures Referenced(Ready(s, t, interrupt))
    ensures Ready(s, t, interrupt).threads.Keys == s.threads.Keys && Ready(s, t, interrupt).runs.Keys == s.runs.Keys
  {
  }

  lemma SubmittedKeeps(s: State, t: string, r: string, userMessage: string)
    requires Referenced(s) && t in s.threads && r !in s.runs
    ensures Referenced(Submitted(s, t, r, userMessage))
    ensures Submitted(s, t, r, userMessage).threads.Keys == s.threads.Keys
  {
  }

  lemma NotedKeeps(s: State, t: string, userMessage: string)
    requires Referenced(s)
    ensures Referenced(Noted(s, t, userMessage)) && Noted(s, t, userMessage).threads.Keys == s.threads.Keys
  {
  }

  lemma MovedKeeps(s: State, r: string, status: Status, phase: Phase)
    requires Referenced(s) && r in s.tasks && StatusFits(status, phase)
    ensures Referenced(Moved(s, r, status, phase))
  {
  }

  lemma ReferencedKeeps(s: State, log: seq<Entry>, step: Step)
    requires Kept(s, log) && Enabled(s, step)
    ensures Referenced(After(s, step))
  {
    hide Transcript, Ready, Noted, Submitted, Moved, Replies, Snapshots, Written;
    match step
    case FinishCreateRun(q, r, interrupt, userMessage) =>
      ReadyKeeps(s, s.waiting[q], interrupt);
      SubmittedKeeps(Ready(s, s.waiting[q], interrupt), s.waiting[q], r, userMessage);
    case AbortCreateRun(q, interrupt, userMessage) =>
      ReadyKeeps(s, s.waiting[q], interrupt);
      NotedKeeps(Ready(s, s.waiting[q], interrupt), s.waiting[q], userMessage);
    case StartRun(r) => MovedKeeps(s, r, Running, Invoking);
    case FailRun(r) => MovedKeeps(s, r, Error, Done);
    case CompleteRun(r, output) => MovedKeeps(Answered(s, s.tasks[r].thread, output), r, Success, Done);
    case _ =>
  }

  /** Tasks stay, keep their thread and stay done; only a completion makes a run successful. */
  lemma StepOfTask(s: State, step: Step, r: string)
    requires Referenced(s) && Enabled(s, step)
    ensures var s' := After(s, step);
      && (r in s.tasks ==> r in s'.tasks && s'.tasks[r].thread == s.tasks[r].thread)
      && (r in s.tasks && s.tasks[r].phase.Done? ==> s'.tasks[r].phase.Done?)
      && (r in s'.runs && s'.runs[r].status.Success? && step != CompleteRun(r, Output(step)) ==>
            r in s.runs && s.runs[r].status.Success? && s'.runs[r].thread == s.runs[r].thread)
      && (step == CompleteRun(r, Output(step)) ==>
            && r in s.tasks && !s.tasks[r].phase.Done?
            && s'.tasks[r].phase.Done? && s'.runs[r].thread == s.tasks[r].thread)
  {
    EditsKeepRuns(s);
    hide Noted, Interrupted, Answered;
    if step.FinishCreateRun? { EditsKeepRuns(Ready(s, s.waiting[step.request], step.interrupt)); }
    if step.AbortCreateRun? { EditsKeepRuns(Ready(s, s.waiting[step.request], step.interrupt)); }
  }

  /** Writing to a thread leaves runs and tasks alone; interrupting cancels runs at most. */
  lemma EditsKeepRuns(s: State)
    ensures forall t, m :: Noted(s, t, m).runs == s.runs && Noted(s, t, m).tasks == s.tasks
    ensures forall t, m :: Answered(s, t, m).runs == s.runs && Answered(s, t, m).tasks == s.tasks
    ensures forall t :: Interrupted(s, t).runs == CancelRunning(s.runs, t) && Interrupted(s, t).tasks == s.tasks
  {
  }

  function Output(step: Step): string {
    if step.CompleteRun? then step.output else ""
  }

  /** A reply is logged exactly by a completion. */
  lemma EntryOfCompletion(s: State, step: Step)
    requires Enabled(s, step)
    ensures var more := EntryOf(s, step);
      && (step.CompleteRun? ==>
            more == [Replied(step.run, s.tasks[step.run].thread, Message(Assistant, step.output))])
      && (more != [] && more[0].Replied? ==> step.CompleteRun?)
  {
  }

  lemma RepliesKeep(s: State, log: seq<Entry>, step: Step)
    requires Kept(s, log) && Enabled(s, step)
    ensures Replies(After(s, step), log + EntryOf(s, step))
  {
    hide Transcript, Snapshots, Written, After, EntryOf, Enabled;
    var s', more := After(s, step), EntryOf(s, step);
    var all := log + more;
    EntryOfCompletion(s, step);
    forall r | r in s'.runs && s'.runs[r].status.Success? ensures HasReplied(all, r, s'.runs[r].thread) {
      StepOfTask(s, step, r);
      if step == CompleteRun(r, Output(step)) {
        assert all[|log|] == more[0];
      } else {
        var k :| 0 <= k < |log| && log[k].Replied? && log[k].run == r && log[k].thread == s.runs[r].thread;
        assert all[k] == log[k];
      }
    }
    forall k | 0 <= k < |all| && all[k].Replied?
      ensures all[k].run in s'.tasks && s'.tasks[all[k].run].phase.Done? && all[k].thread == s'.tasks[all[k].run].thread
      ensures k < |log| ==> all[k].run in s.tasks && s.tasks[all[k].run].phase.Done?
      ensures k == |log| ==> all[k].run in s.tasks && !s.tasks[all[k].run].phase.Done?
    {
      StepOfTask(s, step, all[k].run);
      if k == |log| { assert all[k] == more[0]; }
    }
  }

  lemma StepKeeps(s: State, log: seq<Entry>, step: Step)
    requires Kept(s, log) && Enabled(s, step)
    ensures Kept(After(s, step), log + EntryOf(s, step))
  {
    WrittenKeeps(s, log, step);
    SnapshotsKeep(s, log, step);
    ReferencedKeeps(s, log, step);
    RepliesKeep(s, log, step);
  }

  /** Every interleaving, of any length, keeps all of it. */
  lemma {:induction false} EveryInterleavingKeeps(steps: seq<Step>)
    requires Possible(steps)
    ensures Kept(Reached(steps), Log(steps))
  {
    if steps != [] {
      var before := steps[..|steps| - 1];
      EveryInterleavingKeeps(before);
      StepKeeps(Reached(before), Log(before), steps[|steps| - 1]);
    }
  }

  // ---- What follows for every run of the server ----

  /** The fallback for a missing thread row, and the unguarded read of it, never meet one. */
  lemma NoRowIsMissing(steps: seq<Step>, step: Step)
    requires Possible(steps) && Enabled(Reached(steps), step)
    ensures step.FinishCreateRun? ==> Reached(steps).waiting[step.request] in Reached(steps).threads
    ensures step.CompleteRun? ==> Reached(steps).tasks[step.run].thread in Reached(steps).threads
  {
    EveryInterleavingKeeps(steps);
  }

  /** A run marked successful has its reply in its thread, and the snapshot, when there
      is one, is a beginning of the messages. */
  lemma SuccessIsAnswered(steps: seq<Step>, r: string)
    requires Possible(steps) && r in Reached(steps).runs
    ensures Reached(steps).runs[r].thread in Reached(steps).threads
    ensures Reached(steps).runs[r].status.Success? ==>
      exists k :: 0 <= k < |Log(steps)| && Log(steps)[k].Replied? && Log(steps)[k].run == r
        && Log(steps)[k].message in Reached(steps).threads[Reached(steps).runs[r].thread].messages
  {
    EveryInterleavingKeeps(steps);
    var s, log := Reached(steps), Log(steps);
    if s.runs[r].status.Success? {
      var k :| 0 <= k < |log| && log[k].Replied? && log[k].run == r && log[k].thread == s.runs[r].thread;
      LoggedIsInThread(log, k);
    }
  }

  /** The number of messages is the number of user messages posted to the thread plus the
      number of executions on it that completed. */
  lemma MessagesAreCounted(steps: seq<Step>, t: string)
    requires Possible(steps) && t in Reached(steps).threads
    ensures |Reached(steps).threads[t].messages| == Count(Log(steps), t, false) + Count(Log(steps), t, true)
  {
    EveryInterleavingKeeps(steps);
    TranscriptLength(Log(steps), t);
  }

  /** Along every run, threads stay and their messages only grow at the end. */
  lemma {:induction false} MessagesAreAppendOnly(steps: seq<Step>, n: nat, t: string)
    requires Possible(steps) && n <= |steps|
    ensures Possible(steps[..n])
    ensures t in Reached(steps[..n]).threads ==> t in Reached(steps).threads
    ensures MessagesOf(Reached(steps[..n]).threads, t) <= MessagesOf(Reached(steps).threads, t)
  {
    if n == |steps| {
      assert steps[..n] == steps;
    } else {
      var before := steps[..|steps| - 1];
      assert before[..n] == steps[..n];
      MessagesAreAppendOnly(before, n, t);
      EveryInterleavingKeeps(before);
      StepAppends(Reached(before), steps[|steps| - 1], t);
    }
  }

  /** Right after an interrupting request nothing runs on its thread, its snapshot is
      gone, no message is lost, and runs on other threads keep their rows. */
  lemma InterruptClears(s: State, q: int, r: string, userMessage: string, other: string)
    requires Referenced(s) && Enabled(s, FinishCreateRun(q, r, true, userMessage))
    ensures var s', t := After(s, FinishCreateRun(q, r, true, userMessage)), s.waiting[q];
      && s'.threads[t].values.None? && s.threads[t].messages <= s'.threads[t].messages
      && (other in s'.runs && s'.runs[other].thread == t ==> !s'.runs[other].status.Running?)
      && (other in s.runs && s.runs[other].thread != t ==> s'.runs[other] == s.runs[other])
  {
  }

  /** The thread has the user message, if there is one, at the end of its messages and, after
      an interrupt, no snapshot; the other threads are as they were. */
  ghost predicate PostedTo(before: map<string, Thread>, after: map<string, Thread>, t: string, interrupt: bool,
                           userMessage: string)
  {
    && after.Keys == before.Keys && t in before
    && after[t].messages
       == (if userMessage == "" then before[t].messages else before[t].messages + [Message(User, userMessage)])
    && after[t].values == (if interrupt then None else before[t].values)
    && forall other :: other in before && other != t ==> after[other] == before[other]
  }

  /** An interrupt has cancelled what was running on the thread and nothing else. */
  ghost predicate CancelledOn(before: map<string, RunRow>, after: map<string, RunRow>, t: string, interrupt: bool) {
    forall r :: r in before ==>
      && r in after && after[r].thread == before[r].thread
      && after[r].status ==
         (if interrupt && before[r].thread == t && before[r].status == Running then Cancelled else before[r].status)
  }

  lemma NotedMeans(s: State, t: string, interrupt: bool, userMessage: string)
    requires t in s.threads
    ensures var now := Noted(Ready(s, t, interrupt), t, userMessage);
      && PostedTo(s.threads, now.threads, t, interrupt, userMessage)
      && CancelledOn(s.runs, now.runs, t, interrupt) && now.runs.Keys == s.runs.Keys
      && now.tasks == s.tasks
  {
  }

  /** What a request leaves behind: its message and interrupt, and a pending run of its own
      with a task to answer it; or, when its body is unusable, the former alone. */
  lemma RequestMeans(s: State, q: int, r: string, interrupt: bool, userMessage: string)
    requires q in s.waiting && s.waiting[q] in s.threads
    ensures var t, aborted := s.waiting[q], After(s, AbortCreateRun(q, interrupt, userMessage));
      && PostedTo(s.threads, aborted.threads, t, interrupt, userMessage)
      && CancelledOn(s.runs, aborted.runs, t, interrupt) && aborted.runs.Keys == s.runs.Keys
      && aborted.waiting == s.waiting - {q} && aborted.tasks == s.tasks
    ensures r !in s.runs ==>
      var t, done := s.waiting[q], After(s, FinishCreateRun(q, r, interrupt, userMessage));
      && PostedTo(s.threads, done.threads, t, interrupt, userMessage)
      && CancelledOn(s.runs, done.runs, t, interrupt)
      && done.runs.Keys == s.runs.Keys + {r} && done.runs[r] == RunRow(t, Pending)
      && done.waiting == s.waiting - {q} && done.tasks == s.tasks[r := Task(t, Queued)]
  {
    NotedMeans(s, s.waiting[q], interrupt, userMessage);
    hide PostedTo, Noted, Ready;
  }

  // ---- The server ----

  class RunServer {
    var threads: map<string, Thread>
    var runs: map<string, RunRow>
    var waiting: map<int, string>
    var tasks: map<string, Task>

    ghost function Value(): State
      reads this
    {
      State(threads, runs, waiting, tasks)
    }

    constructor ()
      ensures Value() == INITIAL
    {
      threads, runs, waiting, tasks := map[], map[], map[], map[];
    }

    method CreateThread(t: string)
      requires t !in threads
      modifies this
      ensures Value() == After(old(Value()), Step.CreateThread(t))
      ensures threads == old(threads)[t := Thread([], None)]
      ensures runs == old(runs) && waiting == old(waiting) && tasks == old(tasks)
    {
      threads := threads[t := Thread([], None)];
    }

    /** The stretch before the body is awaited; false stands for the 404 reply. */
    method BeginCreateRun(q: int, t: string) returns (found: bool)
      requires q !in waiting
      modifies this
      ensures Value() == After(old(Value()), Step.BeginCreateRun(q, t))
      ensures found == (t in old(threads))
      ensures waiting == if t in old(threads) then old(waiting)[q := t] else old(waiting)
      ensures threads == old(threads) && runs == old(runs) && tasks == old(tasks)
    {
      found := t in threads;
      if found {
        waiting := waiting[q := t];
      }
    }

    method Interrupt(t: string)
      modifies this
      ensures Value() == Interrupted(old(Value()), t)
    {
      runs := CancelRunning(runs, t);
      if t in threads {
        threads := threads[t := threads[t].(values := None)];
      }
    }

    /** The stretch after the body has arrived, up to the reply with the new run. */
    method FinishCreateRun(q: int, r: string, interrupt: bool, userMessage: string)
      requires q in waiting && r !in runs && Referenced(Value())
      modifies this
      ensures Value() == After(old(Value()), Step.FinishCreateRun(q, r, interrupt, userMessage))
    {
      var t := waiting[q];
      waiting := waiting - {q};
      if interrupt {
        Interrupt(t);
      }
      Note(t, userMessage);
      runs := runs[r := RunRow(t, Pending)];
      tasks := tasks[r := Task(t, Queued)];
    }

    /** Storing the user message of a thread whose row is there. */
    method Note(t: string, userMessage: string)
      requires t in threads
      modifies this`threads
      ensures Value() == Noted(old(Value()), t, userMessage)
    {
      if userMessage != "" {
        var existing := threads[t].messages;
        existing := existing + [Message(User, userMessage)];
        threads := threads[t := threads[t].(messages := existing)];
      }
    }

    /** The same stretch cut short by an error: reading the messages of the body can fail
        after the interrupt was stored, inserting the run after the user message was. */
    method AbortCreateRun(q: int, interrupt: bool, userMessage: string)
      requires q in waiting && Referenced(Value())
      modifies this
      ensures Value() == After(old(Value()), Step.AbortCreateRun(q, interrupt, userMessage))
    {
      if interrupt {
        Interrupt(waiting[q]);
      }
      Note(waiting[q], userMessage);
      waiting := waiting - {q};
    }

    /** `UPDATE runs SET status = ? WHERE run_id = ?` */
    method SetStatus(r: string, status: Status)
      modifies this`runs
      ensures runs == WithStatus(old(runs), r, status)
    {
      if r in runs {
        runs := runs[r := runs[r].(status := status)];
      }
    }

    method StartRun(r: string)
      requires r in tasks && tasks[r].phase.Queued?
      modifies this
      ensures Value() == After(old(Value()), Step.StartRun(r))
      ensures runs == if r in old(runs) then old(runs)[r := RunRow(old(runs)[r].thread, Running)] else old(runs)
      ensures tasks == old(tasks)[r := Task(old(tasks)[r].thread, Invoking)]
      ensures threads == old(threads) && waiting == old(waiting)
    {
      SetStatus(r, Running);
      tasks := tasks[r := tasks[r].(phase := Invoking)];
    }

    method CompleteRun(r: string, output: string)
      requires r in tasks && tasks[r].phase.Invoking? && Referenced(Value())
      modifies this
      ensures Value() == After(old(Value()), Step.CompleteRun(r, output))
      ensures var t := old(tasks)[r].thread;
        && t in old(threads) && r in old(runs)
        && var messages := old(threads)[t].messages + [Message(Assistant, output)];
           && threads == old(threads)[t := Thread(messages, Some(messages))]
           && runs == old(runs)[r := RunRow(t, Success)]
           && tasks == old(tasks)[r := Task(t, Done)]
           && waiting == old(waiting)
    {
      var t := tasks[r].thread;
      var messages := threads[t].messages;
      messages := messages + [Message(Assistant, output)];
      threads := threads[t := Thread(messages, Some(messages))];
      SetStatus(r, Success);
      tasks := tasks[r := tasks[r].(phase := Done)];
    }

    method FailRun(r: string)
      requires r in tasks && tasks[r].phase.Invoking?
      modifies this
      ensures Value() == After(old(Value()), Step.FailRun(r))
      ensures runs == if r in old(runs) then old(runs)[r := RunRow(old(runs)[r].thread, Error)] else old(runs)
      ensures tasks == old(tasks)[r := Task(old(tasks)[r].thread, Done)]
      ensures threads == old(threads) && waiting == old(waiting)
    {
      SetStatus(r, Error);
      tasks := tasks[r := tasks[r].(phase := Done)];
    }

    method CancelRun(t: string, r: string) returns (found: bool)
      modifies this
      ensures Value() == After(old(Value()), Step.CancelRun(t, r))
      ensures found == (r in old(runs) && old(runs)[r].thread == t)
      ensures runs == if found then old(runs)[r := RunRow(t, Cancelled)] else old(runs)
      ensures threads == old(threads) && waiting == old(waiting) && tasks == old(tasks)
    {
      found := r in runs && runs[r].thread == t;
      if found {
        SetStatus(r, Cancelled);
      }
    }
  }
}
