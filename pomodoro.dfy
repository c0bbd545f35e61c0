/** The focus/break timer engine (`src/hooks/usePomodoro.ts`): a persisted
    state machine over phase, status, remaining seconds, the number of
    completed focus sessions and the current task label, together with the
    session-scoped list of recently completed task labels.

    The transitions that build a new record from the previous one are pure
    functions here; the `Timer` class holds the state cell, the recent-task
    list and the log of completion-callback invocations, and its methods are
    the hook's public operations and its once-per-second tick. */
module Pomodoro {
  import opened Wrappers
  import opened Seqs
  import opened Text

  datatype Phase = Focus | Break

  datatype Status = Idle | Running | Paused | Completed

  /** The timer's view of the settings store; durations are in minutes. They
      are plain integers: the settings form replaces a zero or unparseable
      entry by the default (25 or 5) but keeps a negative one, and a zero
      arrives only from settings saved earlier. */
  datatype Settings = Settings(focusDuration: int, breakDuration: int, autoStartBreaks: bool)

  datatype TimerState = TimerState(
    phase: Phase,
    status: Status,
    timeRemaining: int,        // seconds
    completedPomodoros: int,
    taskName: string)

  /** A phase name as found in storage, including those of the retired
      three-phase scheme. */
  datatype StoredPhase = StoredFocus | StoredBreak | StoredShortBreak | StoredLongBreak

  /** The record written to local storage after every state change. */
  datatype PersistedRecord = PersistedRecord(
    phase: StoredPhase,
    status: Status,
    timeRemaining: int,
    completedPomodoros: int,
    taskName: string,
    lastUpdatedAt: int)        // milliseconds since the epoch

  const MaxRecentTasks: nat := 10

  // ---------------------------------------------------------------------
  // Duration policy and phase alternation

  function DurationForPhase(phase: Phase, s: Settings): (minutes: int)
    ensures minutes == if phase == Focus then s.focusDuration else s.breakDuration
  {
    match phase
    case Focus => s.focusDuration
    case Break => s.breakDuration
  }

  function NextPhase(current: Phase): (next: Phase)
    ensures next != current
  {
    if current == Focus then Break else Focus
  }

  /** Alternation has period two. */
  lemma NextPhaseAlternates(p: Phase)
    ensures NextPhase(NextPhase(p)) == p
  {
  }

  function InitialState(s: Settings): (st: TimerState)
    ensures st.phase == Focus && st.status == Idle
    ensures st.timeRemaining == DurationForPhase(Focus, s) * 60
    ensures st.completedPomodoros == 0 && st.taskName == ""
  {
    TimerState(Focus, Idle, s.focusDuration * 60, 0, "")
  }

  // ---------------------------------------------------------------------
  // Recent-task history

  function NotEqualTo(name: string): string -> bool {
    t => t != name
  }

  /** The list after recording `taskName`: a blank label is ignored;
      otherwise earlier copies are dropped, the label goes to the front and
      the list is cut to its first ten entries. */
  function RecordRecentTask(tasks: seq<string>, taskName: string): (r: seq<string>)
    ensures IsBlank(taskName) ==> r == tasks
    ensures !IsBlank(taskName) ==>
      && 1 <= |r| <= MaxRecentTasks
      && r[0] == taskName
      && multiset(r)[taskName] == 1
      && IsSubsequence(r[1..], tasks)
      && r[1..] == Take(Filter(tasks, NotEqualTo(taskName)), MaxRecentTasks - 1)
      && (forall t :: t in tasks ==> t in r || |r| == MaxRecentTasks)
  {
    if IsBlank(taskName) then tasks
    else
      LabelThenOthers(tasks, taskName);
      Take([taskName] + Filter(tasks, NotEqualTo(taskName)), MaxRecentTasks)
  }

  /** The label, then the other entries in order, cut to the cap. */
  lemma LabelThenOthers(tasks: seq<string>, taskName: string)
    ensures var others := Filter(tasks, NotEqualTo(taskName));
      var r := Take([taskName] + others, MaxRecentTasks);
      && 1 <= |r| <= MaxRecentTasks
      && r[0] == taskName
      && multiset(r)[taskName] == 1
      && IsSubsequence(r[1..], tasks)
      && r[1..] == Take(others, MaxRecentTasks - 1)
      && (forall t :: t in tasks ==> t in r || |r| == MaxRecentTasks)
  {
    var others := Filter(tasks, NotEqualTo(taskName));
    FilterMembers(tasks, NotEqualTo(taskName));
    assert taskName !in others by {
      assert !NotEqualTo(taskName)(taskName);
    }
    CappedFront(taskName, others);
    FilterIsSubsequence(tasks, NotEqualTo(taskName));
    PrefixOfSubsequence(others, Take(others, MaxRecentTasks - 1), tasks);
    forall t | t in tasks && t != taskName ensures t in others {
      assert NotEqualTo(taskName)(t);
    }
  }

  /** Putting `x` in front of a list it is not in and cutting to the cap. */
  lemma CappedFront(x: string, others: seq<string>)
    requires x !in others
    ensures var r := Take([x] + others, MaxRecentTasks);
      && 1 <= |r| <= MaxRecentTasks
      && r == [x] + Take(others, MaxRecentTasks - 1)
      && multiset(r)[x] == 1
      && (|r| < MaxRecentTasks ==> forall t :: t in others ==> t in r)
  {
    var r := Take([x] + others, MaxRecentTasks);
    assert r == [x] + Take(others, MaxRecentTasks - 1);
    assert x !in Take(others, MaxRecentTasks - 1);
    assert multiset(r) == multiset{x} + multiset(Take(others, MaxRecentTasks - 1));
  }

  /** Recording the same label twice leaves the list as recording it once:
      the label appears once, at the front. */
  lemma RecordRecentTaskIdempotent(tasks: seq<string>, taskName: string)
    ensures RecordRecentTask(RecordRecentTask(tasks, taskName), taskName) == RecordRecentTask(tasks, taskName)
  {
    if !IsBlank(taskName) {
      var p := NotEqualTo(taskName);
      var r1 := RecordRecentTask(tasks, taskName);
      var others := Filter(tasks, p);
      FilterMembers(tasks, p);
      var rest := r1[1..];
      assert rest == Take(others, MaxRecentTasks - 1);
      forall i | 0 <= i < |rest| ensures p(rest[i]) {
        assert rest[i] == others[i];
        assert others[i] in others;
      }
      FilterAll(rest, p);
      assert r1 == [taskName] + rest;
      assert Filter(r1, p) == rest by {
        assert !p(taskName);
        assert r1[1..] == rest;
      }
      assert RecordRecentTask(r1, taskName) == Take([taskName] + rest, MaxRecentTasks);
    }
  }

  // ---------------------------------------------------------------------
  // Transitions on the state record

  /** The record built when a phase completes, by skip or by expiry. */
  function PhaseCompleted(prev: TimerState, s: Settings): (next: TimerState)
    ensures next.phase != prev.phase
    ensures next.completedPomodoros ==
      if prev.phase == Focus then prev.completedPomodoros + 1 else prev.completedPomodoros
    ensures next.timeRemaining == DurationForPhase(next.phase, s) * 60
    ensures next.status == Running <==> prev.phase == Focus && s.autoStartBreaks
    ensures next.status != Running ==> next.status == Completed
    ensures next.taskName == "" <== prev.phase == Focus
    ensures next.taskName == prev.taskName <== prev.phase == Break
  {
    var isFocusComplete := prev.phase == Focus;
    var nextPhase := NextPhase(prev.phase);
    var nextDuration := DurationForPhase(nextPhase, s);
    TimerState(
      nextPhase,
      if s.autoStartBreaks && isFocusComplete then Running else Completed,
      nextDuration * 60,
      if isFocusComplete then prev.completedPomodoros + 1 else prev.completedPomodoros,
      if isFocusComplete then "" else prev.taskName)
  }

  /** A focus completion followed by a break completion is a full cycle: back
      in the same phase with exactly one more completed session. */
  lemma FullCycleCountsOnce(st: TimerState, s: Settings)
    ensures var twice := PhaseCompleted(PhaseCompleted(st, s), s);
      twice.phase == st.phase && twice.completedPomodoros == st.completedPomodoros + 1
  {
  }

  /** The recent-task list after a completion of the record `prev`. */
  function RecentAfterCompletion(prev: TimerState, recent: seq<string>): (r: seq<string>)
    ensures prev.phase == Break ==> r == recent
    ensures prev.phase == Focus && !IsBlank(prev.taskName) ==> |r| > 0 && r[0] == prev.taskName
    ensures prev.phase == Focus ==> r == RecordRecentTask(recent, prev.taskName)
    ensures IsBlank(prev.taskName) ==> r == recent
  {
    if prev.phase == Focus then RecordRecentTask(recent, prev.taskName) else recent
  }

  /** The interval's updater: one second less while time is left. */
  function Ticked(prev: TimerState): (next: TimerState)
    ensures next.timeRemaining == if prev.timeRemaining > 0 then prev.timeRemaining - 1 else prev.timeRemaining
    ensures next.timeRemaining >= 0 || next == prev
    ensures next.(timeRemaining := prev.timeRemaining) == prev
  {
    if prev.timeRemaining <= 0 then prev else prev.(timeRemaining := prev.timeRemaining - 1)
  }

  /** `start`: from any status, the timer runs; the phase stays. */
  function StartedState(prev: TimerState): (next: TimerState)
    ensures next.status == Running
    ensures next.(status := prev.status) == prev
  {
    prev.(status := Running)
  }

  /** `pause`: from any status, the timer is paused. */
  function PausedState(prev: TimerState): (next: TimerState)
    ensures next.status == Paused
    ensures next.(status := prev.status) == prev
  {
    prev.(status := Paused)
  }

  lemma PauseIdempotent(st: TimerState)
    ensures PausedState(PausedState(st)) == PausedState(st)
  {
  }

  /** `reset`: idle at the full duration of the current phase. */
  function ResetState(prev: TimerState, s: Settings): (next: TimerState)
    ensures next.status == Idle
    ensures next.timeRemaining == DurationForPhase(prev.phase, s) * 60
    ensures next.phase == prev.phase && next.completedPomodoros == prev.completedPomodoros
    ensures next.taskName == prev.taskName
  {
    prev.(status := Idle, timeRemaining := DurationForPhase(prev.phase, s) * 60)
  }

  function WithTaskName(prev: TimerState, name: string): (next: TimerState)
    ensures next.taskName == name
    ensures next.(taskName := prev.taskName) == prev
  {
    prev.(taskName := name)
  }

  /** The settings effect: an idle timer follows the current duration; any
      other status keeps its in-flight remaining time. */
  function Resynced(prev: TimerState, s: Settings): (next: TimerState)
    ensures prev.status == Idle ==> next == ResetState(prev, s)
    ensures prev.status != Idle ==> next == prev
  {
    if prev.status == Idle then
      prev.(timeRemaining := DurationForPhase(prev.phase, s) * 60)
    else prev
  }

  // ---------------------------------------------------------------------
  // The completion check

  /** The condition under which the completion-check effect acts. */
  predicate AwaitingCompletion(st: TimerState) {
    st.status == Running && st.timeRemaining <= 0
  }

  /** Whether a render that takes the record from `before` to `after` re-runs
      the completion-check effect: React runs it again only when one of its
      dependencies, the remaining time and the status, has changed. (Its
      third dependency, the completion handler, changes only with the
      settings.) */
  predicate DepsChanged(before: TimerState, after: TimerState) {
    before.timeRemaining != after.timeRemaining || before.status != after.status
  }

  /** An upper bound on how often the completion check can still fire: a
      break completion never auto-starts, so at most a focus and then a
      break completion. */
  function PendingCompletions(st: TimerState): nat {
    if !AwaitingCompletion(st) then 0 else if st.phase == Focus then 2 else 1
  }

  lemma CompletionReducesPending(st: TimerState, s: Settings)
    requires AwaitingCompletion(st)
    ensures PendingCompletions(PhaseCompleted(st, s)) < PendingCompletions(st)
  {
  }

  /** The record once the completion check has stopped firing, from a record
      `st` whose render runs the effect exactly when `armed` holds. Each
      firing renders the completed record, which runs the effect again only
      if it changed the remaining time or the status. */
  function Settled(st: TimerState, s: Settings, armed: bool): (r: TimerState)
    ensures !(armed && AwaitingCompletion(st)) ==> r == st
    ensures AwaitingCompletion(r) ==>
      (r == st && !armed) || (r == PhaseCompleted(st, s) && !DepsChanged(st, r))
    decreases PendingCompletions(st)
  {
    if armed && AwaitingCompletion(st) then
      CompletionReducesPending(st, s);
      var next := PhaseCompleted(st, s);
      Settled(next, s, DepsChanged(st, next))
    else st
  }

  /** The phases handed to the completion callback while settling, in
      order: none, one, or a focus followed by a break. */
  function FiredPhases(st: TimerState, s: Settings, armed: bool): (fired: seq<Phase>)
    ensures |fired| <= PendingCompletions(st)
    ensures armed && AwaitingCompletion(st) <==> fired != []
    ensures fired != [] ==> fired[0] == st.phase
    ensures |fired| == 2 ==> fired == [Focus, Break]
    decreases PendingCompletions(st)
  {
    if armed && AwaitingCompletion(st) then
      CompletionReducesPending(st, s);
      var next := PhaseCompleted(st, s);
      [st.phase] + FiredPhases(next, s, DepsChanged(st, next))
    else []
  }

  /** The recent-task list once the completion check has stopped firing. */
  function RecentAfterSettling(st: TimerState, s: Settings, armed: bool, recent: seq<string>): (r: seq<string>)
    ensures !(armed && AwaitingCompletion(st)) ==> r == recent
    ensures st.phase == Focus && armed && AwaitingCompletion(st) ==>
      r == RecentAfterCompletion(st, recent)
    decreases PendingCompletions(st)
  {
    if armed && AwaitingCompletion(st) then
      CompletionReducesPending(st, s);
      var next := PhaseCompleted(st, s);
      RecentAfterSettling(next, s, DepsChanged(st, next), RecentAfterCompletion(st, recent))
    else recent
  }

  /** One firing of the completion check leaves what settling reaches
      unchanged. */
  lemma SettleStep(st: TimerState, s: Settings, recent: seq<string>, log: seq<Phase>)
    requires AwaitingCompletion(st)
    ensures PendingCompletions(PhaseCompleted(st, s)) < PendingCompletions(st)
    ensures var next := PhaseCompleted(st, s);
      Settled(next, s, DepsChanged(st, next)) == Settled(st, s, true)
    ensures var next := PhaseCompleted(st, s);
      RecentAfterSettling(next, s, DepsChanged(st, next), RecentAfterCompletion(st, recent)) ==
      RecentAfterSettling(st, s, true, recent)
    ensures var next := PhaseCompleted(st, s);
      (log + [st.phase]) + FiredPhases(next, s, DepsChanged(st, next)) == log + FiredPhases(st, s, true)
  {
    CompletionReducesPending(st, s);
    var next := PhaseCompleted(st, s);
    assert FiredPhases(st, s, true) == [st.phase] + FiredPhases(next, s, DepsChanged(st, next));
  }

  function CountFocus(phases: seq<Phase>): nat {
    if phases == [] then 0 else (if phases[0] == Focus then 1 else 0) + CountFocus(phases[1..])
  }

  /** Settling adds to the count exactly the focus phases it completed. */
  lemma {:induction false} SettledCount(st: TimerState, s: Settings, armed: bool)
    ensures Settled(st, s, armed).completedPomodoros ==
            st.completedPomodoros + CountFocus(FiredPhases(st, s, armed))
    decreases PendingCompletions(st)
  {
    if armed && AwaitingCompletion(st) {
      CompletionReducesPending(st, s);
      var next := PhaseCompleted(st, s);
      SettledCount(next, s, DepsChanged(st, next));
      var rest := FiredPhases(next, s, DepsChanged(st, next));
      assert FiredPhases(st, s, armed) == [st.phase] + rest;
      assert ([st.phase] + rest)[1..] == rest;
    }
  }

  /** With durations of at least one minute, one completion settles the
      timer: the completed phase is the only one reported. */
  lemma SingleCompletionWithPositiveDurations(st: TimerState, s: Settings)
    requires AwaitingCompletion(st) && s.focusDuration > 0 && s.breakDuration > 0
    ensures FiredPhases(st, s, true) == [st.phase]
    ensures Settled(st, s, true) == PhaseCompleted(st, s)
  {
    assert !AwaitingCompletion(PhaseCompleted(st, s));
  }

  /** A focus completion that auto-starts a break of the same length as the
      time it ran out at leaves both dependencies unchanged: the check fires
      once and the break stays running at that time, although it is itself
      expired. A tick returns the record unchanged and so wakes nothing;
      only a change of status, such as a pause and a start, fires it. */
  lemma UnchangedDependenciesFireOnce(st: TimerState, s: Settings)
    requires AwaitingCompletion(st) && st.phase == Focus && s.autoStartBreaks
    requires s.breakDuration * 60 == st.timeRemaining
    ensures FiredPhases(st, s, true) == [Focus]
    ensures Settled(st, s, true) == PhaseCompleted(st, s)
    ensures var stuck := PhaseCompleted(st, s);
      && stuck.phase == Break && AwaitingCompletion(stuck)
      && Ticked(stuck) == stuck && !DepsChanged(stuck, StartedState(stuck))
      && DepsChanged(PausedState(stuck), StartedState(PausedState(stuck)))
      && FiredPhases(StartedState(PausedState(stuck)), s, true) == [Break]
  {
    var stuck := PhaseCompleted(st, s);
    assert !DepsChanged(st, stuck);
    var again := StartedState(PausedState(stuck));
    assert !AwaitingCompletion(PhaseCompleted(again, s));
  }

  /** A zero-length break with auto-start: 25-minute sessions ticked from one
      second to zero fire once and stop in a running break at zero. */
  lemma ZeroBreakAfterTick(taskName: string, count: int)
    ensures var s := Settings(25, 0, true);
      var last := Ticked(TimerState(Focus, Running, 1, count, taskName));
      && FiredPhases(last, s, true) == [Focus]
      && Settled(last, s, true) == TimerState(Break, Running, 0, count + 1, "")
  {
    var s := Settings(25, 0, true);
    var last := Ticked(TimerState(Focus, Running, 1, count, taskName));
    UnchangedDependenciesFireOnce(last, s);
  }

  // ---------------------------------------------------------------------
  // Persistence and reconciliation

  /** Whole seconds between two timestamps in milliseconds, rounded down
      (`Math.floor`; Dafny's `/` by a positive divisor rounds down too). */
  function ElapsedSeconds(now: int, lastUpdatedAt: int): (e: int)
    ensures e * 1000 <= now - lastUpdatedAt < e * 1000 + 1000
  {
    (now - lastUpdatedAt) / 1000
  }

  /** The retired short- and long-break phases both become the break. */
  function MigratePhase(stored: StoredPhase): (p: Phase)
    ensures p == Focus <==> stored == StoredFocus
  {
    match stored
    case StoredFocus => Focus
    case _ => Break
  }

  function StoredPhaseOf(p: Phase): (stored: StoredPhase)
    ensures MigratePhase(stored) == p
  {
    match p
    case Focus => StoredFocus
    case Break => StoredBreak
  }

  /** A saved record reconciled against the clock: a running timer loses the
      whole seconds that passed and, if none are left, shows the same phase
      as completed at zero (its completion is not counted here). */
  function Reconcile(rec: PersistedRecord, now: int): (st: TimerState)
    ensures st.phase == MigratePhase(rec.phase)
    ensures st.completedPomodoros == rec.completedPomodoros && st.taskName == rec.taskName
    ensures rec.status != Running ==> st.status == rec.status && st.timeRemaining == rec.timeRemaining
    ensures rec.status == Running ==>
      var left := rec.timeRemaining - ElapsedSeconds(now, rec.lastUpdatedAt);
      if left <= 0 then st.status == Completed && st.timeRemaining == 0
      else st.status == Running && st.timeRemaining == left
    ensures !AwaitingCompletion(st)
  {
    var restored := TimerState(MigratePhase(rec.phase), rec.status, rec.timeRemaining,
                               rec.completedPomodoros, rec.taskName);
    if rec.status == Running then
      var newTimeRemaining := rec.timeRemaining - ElapsedSeconds(now, rec.lastUpdatedAt);
      if newTimeRemaining <= 0 then restored.(status := Completed, timeRemaining := 0)
      else restored.(timeRemaining := newTimeRemaining)
    else restored
  }

  /** Loading: no record (absent, or not parseable) gives a fresh timer. */
  function LoadPersistedState(stored: Option<PersistedRecord>, s: Settings, now: int): (st: TimerState)
    ensures stored.None? ==> st == InitialState(s)
    ensures stored.Some? ==> st == Reconcile(stored.value, now)
  {
    match stored
    case None => InitialState(s)
    case Some(rec) => Reconcile(rec, now)
  }

  /** The record the persist effect writes at time `now`. */
  function Persist(st: TimerState, now: int): (rec: PersistedRecord)
    ensures MigratePhase(rec.phase) == st.phase && rec.lastUpdatedAt == now
    ensures rec.status == st.status && rec.timeRemaining == st.timeRemaining
    ensures rec.completedPomodoros == st.completedPomodoros && rec.taskName == st.taskName
  {
    PersistedRecord(StoredPhaseOf(st.phase), st.status, st.timeRemaining,
                    st.completedPomodoros, st.taskName, now)
  }

  /** Saving and loading at the same instant gives back the state, except for
      a running timer at or below zero, which comes back completed at zero. */
  lemma LoadSaveRoundTrip(st: TimerState, s: Settings, now: int)
    ensures LoadPersistedState(Some(Persist(st, now)), s, now) == st <==> !AwaitingCompletion(st)
    ensures AwaitingCompletion(st) ==>
      LoadPersistedState(Some(Persist(st, now)), s, now) == st.(status := Completed, timeRemaining := 0)
  {
    assert ElapsedSeconds(now, now) == 0;
  }

  /** A running record with 120 s left, loaded 90 s later, runs with 30 s
      left; loaded 150 s later, it is completed at zero with the same count. */
  lemma ReconcileExamples(rec: PersistedRecord)
    requires rec.status == Running && rec.timeRemaining == 120
    ensures Reconcile(rec, rec.lastUpdatedAt + 90_000).status == Running
    ensures Reconcile(rec, rec.lastUpdatedAt + 90_000).timeRemaining == 30
    ensures Reconcile(rec, rec.lastUpdatedAt + 150_000).status == Completed
    ensures Reconcile(rec, rec.lastUpdatedAt + 150_000).timeRemaining == 0
    ensures Reconcile(rec, rec.lastUpdatedAt + 150_000).completedPomodoros == rec.completedPomodoros
  {
    assert ElapsedSeconds(rec.lastUpdatedAt + 90_000, rec.lastUpdatedAt) == 90;
    assert ElapsedSeconds(rec.lastUpdatedAt + 150_000, rec.lastUpdatedAt) == 150;
  }

  /** A phase that expired while the page was closed is counted one `start`
      later: the reload shows it completed at zero with the old count, and
      starting runs it at zero, which completes it at once. */
  lemma ExpiredReloadDefersCount(rec: PersistedRecord, s: Settings, now: int)
    requires rec.status == Running
    requires rec.timeRemaining - ElapsedSeconds(now, rec.lastUpdatedAt) <= 0
    ensures var loaded := Resynced(LoadPersistedState(Some(rec), s, now), s);
      && loaded.status == Completed && loaded.timeRemaining == 0
      && loaded.completedPomodoros == rec.completedPomodoros
      && FiredPhases(StartedState(loaded), s, true)[0] == MigratePhase(rec.phase)
      && Settled(StartedState(loaded), s, true).completedPomodoros ==
         rec.completedPomodoros + (if MigratePhase(rec.phase) == Focus then 1 else 0)
  {
    var loaded := Resynced(LoadPersistedState(Some(rec), s, now), s);
    var started := StartedState(loaded);
    SettledCount(started, s, true);
    var next := PhaseCompleted(started, s);
    if AwaitingCompletion(next) && DepsChanged(started, next) {
      assert next.phase == Break;
      assert !AwaitingCompletion(PhaseCompleted(next, s));
      assert FiredPhases(started, s, true) == [Focus, Break];
      assert CountFocus([Focus, Break]) == 1 by {
        assert [Focus, Break][1..] == [Break];
        assert [Break][1..] == [];
      }
    } else {
      assert FiredPhases(started, s, true) == [started.phase];
      assert [started.phase][1..] == [];
    }
  }

  /** Settling from a record in the break phase completes at most that
      break, which keeps the label, the count and the recent list. */
  lemma SettlingFromBreak(st: TimerState, s: Settings, armed: bool, recent: seq<string>)
    requires st.phase == Break
    ensures RecentAfterSettling(st, s, armed, recent) == recent
    ensures Settled(st, s, armed).taskName == st.taskName
    ensures Settled(st, s, armed).completedPomodoros == st.completedPomodoros
  {
    if armed && AwaitingCompletion(st) {
      var after := PhaseCompleted(st, s);
      assert !AwaitingCompletion(after);
      assert RecentAfterSettling(st, s, armed, recent) ==
             RecentAfterSettling(after, s, DepsChanged(st, after), recent);
      assert Settled(st, s, armed) == Settled(after, s, DepsChanged(st, after));
    }
  }

  /** A focus session that runs out naturally records its non-blank label at
      the front of the recent-task list and is counted once. */
  lemma NaturalExpiryRecordsTask(st: TimerState, s: Settings, recent: seq<string>)
    requires st.phase == Focus && st.status == Running && st.timeRemaining == 1
    requires !IsBlank(st.taskName)
    ensures var last := Ticked(st);
      && AwaitingCompletion(last)
      && DepsChanged(st, last)
      && Settled(last, s, true).completedPomodoros == st.completedPomodoros + 1
      && Settled(last, s, true).taskName == ""
      && |RecentAfterSettling(last, s, true, recent)| > 0
      && RecentAfterSettling(last, s, true, recent)[0] == st.taskName
  {
    var last := Ticked(st);
    var next := PhaseCompleted(last, s);
    var r1 := RecentAfterCompletion(last, recent);
    assert RecentAfterSettling(last, s, true, recent) ==
           RecentAfterSettling(next, s, DepsChanged(last, next), r1);
    assert Settled(last, s, true) == Settled(next, s, DepsChanged(last, next));
    SettlingFromBreak(next, s, DepsChanged(last, next), r1);
  }

  /** With non-negative durations no transition makes the remaining time
      negative. */
  lemma RemainingStaysNonNegative(st: TimerState, s: Settings, armed: bool, name: string)
    requires st.timeRemaining >= 0 && s.focusDuration >= 0 && s.breakDuration >= 0
    ensures PhaseCompleted(st, s).timeRemaining >= 0
    ensures Ticked(st).timeRemaining >= 0
    ensures ResetState(st, s).timeRemaining >= 0 && Resynced(st, s).timeRemaining >= 0
    ensures StartedState(st).timeRemaining >= 0 && PausedState(st).timeRemaining >= 0
    ensures WithTaskName(st, name).timeRemaining >= 0
    ensures Settled(st, s, armed).timeRemaining >= 0
  {
    if armed && AwaitingCompletion(st) {
      var next := PhaseCompleted(st, s);
      assert Settled(st, s, armed) == Settled(next, s, DepsChanged(st, next));
    }
  }

  // ---------------------------------------------------------------------
  // The displayed time

  /** JavaScript's `%`: the remainder of division truncated toward zero,
      which is smaller than the divisor in magnitude, differs from the
      dividend by a multiple of the divisor and takes the dividend's sign. */
  function JsRemainder(a: int, b: int): (r: int)
    requires b > 0
    ensures -b < r < b && (a - r) % b == 0
    ensures a >= 0 ==> r >= 0
    ensures a < 0 ==> r <= 0
  {
    if a >= 0 then
      assert a - a % b == (a / b) * b;
      MultipleHasNoRemainder(a / b, b);
      a % b
    else
      NegativeRemainder(a, b);
      -((-a) % b)
  }

  /** A negative dividend plus the remainder of its magnitude is a multiple
      of the divisor. */
  lemma NegativeRemainder(a: int, b: int)
    requires a < 0 && b > 0
    ensures (a + (-a) % b) % b == 0
  {
    var q := (-a) / b;
    assert a + (-a) % b == (-q) * b;
    MultipleHasNoRemainder(-q, b);
  }

  lemma MultipleHasNoRemainder(k: int, b: int)
    requires b > 0
    ensures (k * b) % b == 0
  {
    var q, r := (k * b) / b, (k * b) % b;
    var d := k - q;
    assert r == d * b;
    assert d >= 1 ==> d * b >= b;
    assert d <= -1 ==> d * b <= -b;
  }

  /** `formattedTime`: minutes (rounded down) and the JavaScript remainder of
      seconds, each printed with at least two characters, joined by ':'. A
      negative time shows a leading minus sign. */
  function FormattedTime(timeRemaining: int): (f: string)
    ensures |f| >= 5
    ensures timeRemaining < 0 <==> f[0] == '-'
  {
    PadStart(IntToString(timeRemaining / 60), 2, '0') + ":" +
    PadStart(IntToString(JsRemainder(timeRemaining, 60)), 2, '0')
  }

  /** `f` is some decimal digits, a ':' and two decimal digits for the
      seconds below 60, together worth `t` seconds. */
  predicate ReadsBackAs(f: string, t: int) {
    && |f| >= 5 && f[|f| - 3] == ':'
    && AllDigits(f[..|f| - 3]) && AllDigits(f[|f| - 2..])
    && ParseDigits(f[|f| - 2..]) < 60
    && ParseDigits(f[..|f| - 3]) * 60 + ParseDigits(f[|f| - 2..]) == t
  }

  /** For a non-negative time the text reads back as that time: the last two
      digits are the seconds (below 60) and what precedes the ':' the
      minutes; below an hour and forty minutes it is exactly "MM:SS". */
  lemma FormattedTimeReadsBack(t: int)
    requires t >= 0
    ensures ReadsBackAs(FormattedTime(t), t)
    ensures t < 6000 ==> |FormattedTime(t)| == 5
  {
    var m, sec := MinutesAndSeconds(t);
    var minutes, seconds := FormattedHalves(t, m, sec);
    var f := FormattedTime(t);
    SplitAtColon(f, minutes, seconds, m, sec);
    ReadsBackFromParts(f, m, sec, t);
  }

  lemma ReadsBackFromParts(f: string, m: nat, sec: nat, t: int)
    requires |f| >= 5 && f[|f| - 3] == ':'
    requires AllDigits(f[..|f| - 3]) && AllDigits(f[|f| - 2..])
    requires ParseDigits(f[..|f| - 3]) == m && ParseDigits(f[|f| - 2..]) == sec
    requires sec < 60 && m * 60 + sec == t
    ensures ReadsBackAs(f, t)
  {
  }

  /** Whole minutes and the seconds left over. */
  lemma MinutesAndSeconds(t: int) returns (m: nat, sec: nat)
    requires t >= 0
    ensures m == t / 60 && sec == t % 60 && sec < 60
    ensures m * 60 + sec == t
    ensures t < 6000 ==> m < 100
  {
    m, sec := t / 60, t % 60;
  }

  /** For a non-negative time both halves print without a sign, as at
      least two digits worth the minutes and exactly two worth the seconds. */
  lemma FormattedHalves(t: int, m: nat, sec: nat) returns (minutes: string, seconds: string)
    requires t >= 0 && m == t / 60 && sec == t % 60 && sec < 60
    ensures FormattedTime(t) == minutes + ":" + seconds
    ensures |seconds| == 2 && |minutes| >= 2 && (m < 100 ==> |minutes| == 2)
    ensures AllDigits(minutes) && AllDigits(seconds)
    ensures ParseDigits(minutes) == m && ParseDigits(seconds) == sec
  {
    minutes := PadStart(NatToString(m), 2, '0');
    seconds := PadStart(NatToString(sec), 2, '0');
    assert JsRemainder(t, 60) == sec;
    PaddedNatValue(m, 2);
    PaddedNatValue(sec, 2);
  }

  /** Two digit strings joined by ':' read back as their two values. */
  lemma SplitAtColon(f: string, minutes: string, seconds: string, m: nat, sec: nat)
    requires f == minutes + ":" + seconds
    requires |seconds| == 2 && |minutes| >= 2
    requires ParseDigits(minutes) == m && ParseDigits(seconds) == sec
    ensures |f| == |minutes| + 3 && f[|f| - 3] == ':'
    ensures f[..|f| - 3] == minutes && f[|f| - 2..] == seconds
    ensures ParseDigits(f[..|f| - 3]) == m && ParseDigits(f[|f| - 2..]) == sec
  {
    assert f[..|f| - 3] == minutes;
    assert f[|f| - 2..] == seconds;
  }

  // ---------------------------------------------------------------------
  // The hook's state cell and its operations

  class Timer {
    var state: TimerState
    var settings: Settings
    /** The session-scoped recent-task list, most recent first. */
    var recentTasks: seq<string>
    /** The phases handed to the completion callback, oldest first. */
    var completions: seq<Phase>

    /** The fields after settling, starting from record `st` (whose render
        runs the completion check when `armed` holds), recent list `recent`
        and callback log `fired`. */
    ghost predicate SettledFrom(st: TimerState, armed: bool, recent: seq<string>, fired: seq<Phase>)
      reads this
    {
      && state == Settled(st, settings, armed)
      && recentTasks == RecentAfterSettling(st, settings, armed, recent)
      && completions == fired + FiredPhases(st, settings, armed)
    }

    /** Mounting the hook: the state is loaded and reconciled, and the
        settings effect, which runs on mount, brings an idle timer to the
        current duration. The reconciled record is never awaiting
        completion, so the check has nothing to do on mount. */
    constructor Mount(stored: Option<PersistedRecord>, s: Settings, now: int, sessionTasks: seq<string>)
      ensures !AwaitingCompletion(state)
      ensures state == Resynced(LoadPersistedState(stored, s, now), s)
      ensures settings == s && recentTasks == sessionTasks && completions == []
    {
      state := Resynced(LoadPersistedState(stored, s, now), s);
      settings := s;
      recentTasks := sessionTasks;
      completions := [];
    }

    /** `handlePhaseComplete`: the label of a completed focus session goes
        into the recent list, the callback receives the completed phase, and
        the record advances. */
    method HandlePhaseComplete()
      modifies this
      ensures state == PhaseCompleted(old(state), settings)
      ensures recentTasks == RecentAfterCompletion(old(state), old(recentTasks))
      ensures completions == old(completions) + [old(state).phase]
      ensures settings == old(settings)
    {
      if state.phase == Focus && !IsBlank(state.taskName) {
        recentTasks := RecordRecentTask(recentTasks, state.taskName);
      }
      completions := completions + [state.phase];
      state := PhaseCompleted(state, settings);
    }

    /** The completion-check effect after a render; `armed` says whether
        that render changed one of the effect's dependencies. Each firing
        renders again, and the effect runs again only if the firing changed
        the remaining time or the status. */
    method Settle(armed: bool)
      modifies this
      ensures settings == old(settings)
      ensures SettledFrom(old(state), armed, old(recentTasks), old(completions))
    {
      var fire := armed;
      while fire && AwaitingCompletion(state)
        invariant settings == old(settings)
        invariant Settled(state, settings, fire) == Settled(old(state), settings, armed)
        invariant RecentAfterSettling(state, settings, fire, recentTasks) ==
                  RecentAfterSettling(old(state), settings, armed, old(recentTasks))
        invariant completions + FiredPhases(state, settings, fire) ==
                  old(completions) + FiredPhases(old(state), settings, armed)
        decreases PendingCompletions(state)
      {
        SettleStep(state, settings, recentTasks, completions);
        var before := state;
        HandlePhaseComplete();
        fire := DepsChanged(before, state);
      }
    }

    /** `start`: the status becomes running, which runs the check unless
        the timer was running already. */
    method Start()
      modifies this
      ensures settings == old(settings)
      ensures SettledFrom(StartedState(old(state)), old(state).status != Running,
                          old(recentTasks), old(completions))
    {
      var before := state;
      state := StartedState(state);
      Settle(DepsChanged(before, state));
    }

    method Pause()
      modifies this
      ensures !AwaitingCompletion(state) && state == PausedState(old(state))
      ensures settings == old(settings) && recentTasks == old(recentTasks)
      ensures completions == old(completions)
    {
      state := PausedState(state);
    }

    method Reset()
      modifies this
      ensures !AwaitingCompletion(state) && state == ResetState(old(state), settings)
      ensures settings == old(settings) && recentTasks == old(recentTasks)
      ensures completions == old(completions)
    {
      state := ResetState(state, settings);
    }

    /** `skip`: completes the current phase whatever the status; the check
        then runs if that changed the remaining time or the status. */
    method Skip()
      modifies this
      ensures settings == old(settings)
      ensures SettledFrom(PhaseCompleted(old(state), settings),
                          DepsChanged(old(state), PhaseCompleted(old(state), settings)),
                          RecentAfterCompletion(old(state), old(recentTasks)),
                          old(completions) + [old(state).phase])
    {
      var before := state;
      HandlePhaseComplete();
      Settle(DepsChanged(before, state));
    }

    /** `setTaskName`: the label is not a dependency of the check. */
    method SetTaskName(name: string)
      modifies this
      ensures state == WithTaskName(old(state), name) && !DepsChanged(old(state), state)
      ensures settings == old(settings) && recentTasks == old(recentTasks)
      ensures completions == old(completions)
    {
      state := WithTaskName(state, name);
    }

    /** One second of the interval, which exists only while running. A tick
        at or below zero returns the record itself, which renders nothing,
        so only a tick that takes a second off runs the check. */
    method Tick()
      requires state.status == Running
      modifies this
      ensures settings == old(settings)
      ensures SettledFrom(Ticked(old(state)), old(state).timeRemaining > 0,
                          old(recentTasks), old(completions))
    {
      var before := state;
      state := Ticked(state);
      Settle(DepsChanged(before, state));
    }

    /** New settings from the settings store. The store always builds a new
        settings object, so the completion handler changes too and the check
        runs again. */
    method ChangeSettings(s: Settings)
      modifies this
      ensures settings == s
      ensures SettledFrom(Resynced(old(state), s), true, old(recentTasks), old(completions))
    {
      settings := s;
      state := Resynced(state, s);
      Settle(true);
    }
  }

  /** A fresh timer with 25-minute sessions, started and skipped at once: a
      break follows, one session is counted and the callback saw the focus. */
  method StartThenSkipScenario(autoStart: bool, now: int)
  {
    var timer := new Timer.Mount(None, Settings(25, 5, autoStart), now, []);
    assert timer.state == TimerState(Focus, Idle, 1500, 0, "");
    timer.Start();
    assert timer.state == TimerState(Focus, Running, 1500, 0, "");
    timer.Skip();
    assert timer.state.phase == Break && timer.state.completedPomodoros == 1;
    assert timer.state.taskName == "" && timer.state.timeRemaining == 300;
    assert timer.state.status == if autoStart then Running else Completed;
    assert timer.completions == [Focus];
  }

  /** Reset while running at ten seconds: idle at the full duration, same
      phase and count. */
  method ResetWhileRunningScenario(now: int)
  {
    var timer := new Timer.Mount(None, Settings(25, 5, false), now, []);
    timer.Start();
    while timer.state.timeRemaining > 10
      invariant timer.state.status == Running && timer.completions == []
      invariant timer.state.phase == Focus && timer.state.completedPomodoros == 0
      invariant timer.state.timeRemaining >= 10 && timer.state.taskName == ""
      invariant timer.settings == Settings(25, 5, false)
      decreases timer.state.timeRemaining
    {
      timer.Tick();
    }
    assert timer.state.timeRemaining == 10;
    timer.Reset();
    assert timer.state == TimerState(Focus, Idle, 1500, 0, "");
  }

  /** A zero-length break with auto-start: a focus restored with one second
      left ticks out and fires the callback once; the break then stays
      running at zero through further ticks until a pause and a start
      complete it. */
  method ZeroBreakScenario(now: int)
  {
    var saved := PersistedRecord(StoredFocus, Running, 1, 0, "", now);
    var timer := new Timer.Mount(Some(saved), Settings(25, 0, true), now, []);
    assert ElapsedSeconds(now, now) == 0;
    assert timer.state == TimerState(Focus, Running, 1, 0, "");
    UnchangedDependenciesFireOnce(Ticked(timer.state), timer.settings);
    timer.Tick();
    assert timer.state == TimerState(Break, Running, 0, 1, "");
    assert timer.completions == [Focus];
    timer.Tick();
    assert timer.completions == [Focus];
    timer.Pause();
    timer.Start();
    assert timer.completions == [Focus, Break];
    assert timer.state == TimerState(Focus, Completed, 1500, 1, "");
  }
}
