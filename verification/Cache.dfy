/**
 The candidate cache: tasks that ask for the candidates of packages run interleaved, each up to
 its next await point; the provider is asked at most once per package, and tasks that come in
 meanwhile wait for the answer.
 */
module Cache {
  import opened Sat
  import opened Clauses
  import opened Problems

  /** Solvables whose dependencies are cheap to get. */
  datatype Hint = NoHint | AllOfThem | These(solvables: seq<SolvableId>)

  datatype Candidates = Candidates(solvables: seq<SolvableId>, hint: Hint) {
    function Hinted(): seq<SolvableId> {
      match hint
      case NoHint => []
      case AllOfThem => solvables
      case These(s) => s
    }
  }

  type CandidatesId = nat
  type TaskId = nat

  /** Where a task stands: not polled yet, waiting for the provider, listening for another task's answer, or
      finished. */
  datatype Task =
    | Fresh(name: Name)
    | Asking(name: Name)
    | Listening(name: Name, notified: bool)
    | Done(name: Name, id: CandidatesId)
    | Cancelled(name: Name)

  /** What can happen next: a task comes in, a task is polled (the provider may want to cancel), or the provider
      answers. */
  datatype Step = Spawn(name: Name) | Poll(task: TaskId, cancel: bool) | Answer(task: TaskId, candidates: Candidates)

  /** At most one task waits for the provider on behalf of a package, and the others will be told. */
  ghost predicate TaskOk(t: Task, stored: map<Name, CandidatesId>, inFlight: set<Name>) {
    match t
    case Fresh(_) => true
    case Cancelled(_) => true
    case Asking(n) => n in inFlight
    case Listening(n, notified) => if notified then n in stored else n in inFlight
    case Done(n, id) => n in stored && stored[n] == id
  }

  ghost predicate AllTasksOk(tasks: seq<Task>, stored: map<Name, CandidatesId>, inFlight: set<Name>) {
    forall t :: 0 <= t < |tasks| ==> TaskOk(tasks[t], stored, inFlight)
  }

  /** Task `t` is the one that asked for package `n`. */
  ghost predicate Asks(tasks: seq<Task>, t: TaskId, n: Name) {
    t < |tasks| && tasks[t] == Asking(n)
  }

  ghost predicate OneAsks(tasks: seq<Task>, inFlight: set<Name>) {
    && (forall n :: n in inFlight ==> exists t: TaskId :: Asks(tasks, t, n))
    && (forall t: TaskId, u: TaskId, n: Name :: Asks(tasks, t, n) && Asks(tasks, u, n) ==> t == u)
  }

  /** Every request that was made is under way or answered, and none was made twice. */
  ghost predicate AskedOnce(asked: seq<Name>, stored: map<Name, CandidatesId>, inFlight: set<Name>) {
    && (forall i, j :: 0 <= i < j < |asked| ==> asked[i] != asked[j])
    && (forall n :: n in asked <==> n in stored || n in inFlight)
    && (forall n :: n in inFlight ==> n !in stored)
  }

  /** Each package has its own entry, which holds the provider's answer. */
  ghost predicate ArenaOk(arena: seq<Candidates>, stored: map<Name, CandidatesId>, answers: map<Name, Candidates>) {
    && stored.Keys == answers.Keys
    && (forall n :: n in stored ==> stored[n] < |arena| && arena[stored[n]] == answers[n])
    && (forall n, m :: n in stored && m in stored && stored[n] == stored[m] ==> n == m)
  }

  ghost predicate HintsOk(hints: set<SolvableId>, arena: seq<Candidates>) {
    forall s :: s in hints <==> exists i :: 0 <= i < |arena| && s in arena[i].Hinted()
  }

  class SolverCache {
    var arena: seq<Candidates>
    var stored: map<Name, CandidatesId>
    var inFlight: set<Name>
    var hints: set<SolvableId>
    var tasks: seq<Task>

    /** The requests made to the provider, in order, and its answers. */
    ghost var asked: seq<Name>
    ghost var answers: map<Name, Candidates>

    ghost predicate Valid()
      reads this
    {
      && AllTasksOk(tasks, stored, inFlight) && OneAsks(tasks, inFlight)
      && AskedOnce(asked, stored, inFlight) && ArenaOk(arena, stored, answers) && HintsOk(hints, arena)
    }

    constructor ()
      ensures Valid() && tasks == [] && asked == [] && answers == map[]
    {
      arena, stored, inFlight, hints, tasks, asked, answers := [], map[], {}, {}, [], [], map[];
    }

    method SpawnTask(name: Name) returns (t: TaskId)
      requires Valid()
      modifies this`tasks
      ensures Valid() && t == |old(tasks)| && tasks == old(tasks) + [Fresh(name)]
    {
      hide AskedOnce, ArenaOk, HintsOk;
      t := |tasks|;
      Spawned(tasks, inFlight, name);
      tasks := tasks + [Fresh(name)];
    }

    /** The first poll: the cached entry, or a request, or waiting for the request that is under way. */
    method Start(t: TaskId, cancel: bool)
      requires Valid() && t < |tasks| && tasks[t].Fresh?
      modifies this`tasks, this`inFlight, this`asked
      ensures Valid() && |tasks| == |old(tasks)| && forall u :: 0 <= u < |tasks| && u != t ==> tasks[u] == old(tasks)[u]
      ensures var n := old(tasks)[t].name;
        tasks[t] == if n in stored then Done(n, stored[n]) else if cancel then Cancelled(n)
                    else if n in old(inFlight) then Listening(n, false) else Asking(n)
      ensures var n := old(tasks)[t].name;
        asked == if n in stored || cancel || n in old(inFlight) then old(asked) else old(asked) + [n]
    {
      hide ArenaOk, HintsOk;
      var n := tasks[t].name;
      if n in stored {
        tasks := tasks[t := Done(n, stored[n])];
      } else if cancel {
        tasks := tasks[t := Cancelled(n)];
      } else if n in inFlight {
        tasks := tasks[t := Listening(n, false)];
      } else {
        inFlight := inFlight + {n};
        asked := asked + [n];
        tasks := tasks[t := Asking(n)];
      }
      Moved(old(tasks), tasks, old(inFlight), inFlight, t, n);
    }

    /** The provider answered: the entry is stored, the request is over, and everybody who listens is notified. */
    method Receive(t: TaskId, candidates: Candidates)
      requires Valid() && t < |tasks| && tasks[t].Asking?
      modifies this
      ensures Valid() && asked == old(asked)
      ensures var n := old(tasks)[t].name; answers == old(answers)[n := candidates] && n !in old(answers)
      ensures |tasks| == |old(tasks)| && tasks[t].Done? && tasks[t].name == old(tasks)[t].name
      ensures forall u :: 0 <= u < |tasks| && u != t ==> tasks[u] == Notified(old(tasks)[u], old(tasks)[t].name)
    {
      var n := tasks[t].name;
      Answered(asked, stored, inFlight, arena, answers, hints, tasks, t, candidates);
      hints := hints + (set s | s in candidates.Hinted());
      var id := |arena|;
      arena := arena + [candidates];
      stored := stored[n := id];
      answers := answers[n := candidates];
      inFlight := inFlight - {n};
      tasks := NotifyAll(tasks, n)[t := Done(n, id)];
    }

    /** A task that was notified looks the entry up; it is there. */
    method Resume(t: TaskId)
      requires Valid() && t < |tasks| && tasks[t].Listening? && tasks[t].notified
      modifies this`tasks
      ensures Valid() && tasks == old(tasks)[t := Done(old(tasks)[t].name, stored[old(tasks)[t].name])]
      ensures old(tasks)[t].name in stored
    {
      hide ArenaOk, HintsOk;
      var n := tasks[t].name;
      assert TaskOk(tasks[t], stored, inFlight);
      tasks := tasks[t := Done(n, stored[n])];
      Moved(old(tasks), tasks, inFlight, inFlight, t, n);
    }

    /** One step of a schedule; a step that is not possible now has no effect. */
    method Take(step: Step)
      requires Valid()
      modifies this
      ensures Valid() && old(asked) <= asked && SameNames(old(tasks), tasks)
      ensures step.Spawn? ==> tasks == old(tasks) + [Fresh(step.name)] && asked == old(asked) && answers == old(answers)
      ensures step.Poll? ==> |tasks| == |old(tasks)| && answers == old(answers) &&
                             forall u :: 0 <= u < |tasks| && u != step.task ==> tasks[u] == old(tasks)[u]
      ensures step.Poll? && step.task < |old(tasks)| ==>
                var n := tasks[step.task].name;
                && tasks[step.task] == (
                   match old(tasks)[step.task]
                   case Fresh(_) =>
                     if n in old(stored) then Done(n, old(stored)[n]) else if step.cancel then Cancelled(n)
                     else if n in old(inFlight) then Listening(n, false) else Asking(n)
                   case Listening(_, notified) =>
                     if notified && n in old(stored) then Done(n, old(stored)[n]) else old(tasks)[step.task]
                   case other => other)
                && asked == (if old(tasks)[step.task].Fresh? && tasks[step.task].Asking? then old(asked) + [n]
                             else old(asked))
      ensures step.Answer? && step.task < |old(tasks)| && old(tasks)[step.task].Asking? ==>
                var n := old(tasks)[step.task].name;
                && n !in old(answers) && answers == old(answers)[n := step.candidates] && asked == old(asked)
                && |tasks| == |old(tasks)| && tasks[step.task].Done?
                && forall u :: 0 <= u < |tasks| && u != step.task ==>
                     tasks[u] == if old(tasks)[u] == Listening(n, false) then Listening(n, true) else old(tasks)[u]
      ensures !Possible(step, old(tasks)) ==> tasks == old(tasks) && asked == old(asked) && answers == old(answers)
    {
      hide AllTasksOk, OneAsks, AskedOnce, ArenaOk, HintsOk;
      match step {
        case Spawn(name) =>
          var _ := SpawnTask(name);
        case Poll(t, cancel) =>
          if t < |tasks| && tasks[t].Fresh? {
            Start(t, cancel);
          } else if t < |tasks| && tasks[t].Listening? && tasks[t].notified {
            Resume(t);
          }
        case Answer(t, candidates) =>
          if t < |tasks| && tasks[t].Asking? {
            Receive(t, candidates);
          }
      }
    }

    /** Any schedule at all: tasks that come in, are polled and are answered in any order. */
    method Run(schedule: seq<Step>)
      requires Valid()
      modifies this
      ensures Valid()
      ensures forall i, j :: 0 <= i < j < |asked| ==> asked[i] != asked[j]
      ensures forall t, u :: 0 <= t < |tasks| && 0 <= u < |tasks| && tasks[t].Done? && tasks[u].Done? ==>
                (tasks[t].id == tasks[u].id <==> tasks[t].name == tasks[u].name)
      ensures forall t :: 0 <= t < |tasks| && tasks[t].Done? ==>
                tasks[t].name in answers && tasks[t].id < |arena| && arena[tasks[t].id] == answers[tasks[t].name]
      ensures SameNames(old(tasks), tasks) &&
              forall n :: n in old(answers) ==> n in answers && answers[n] == old(answers)[n]
      ensures forall n :: n in answers && n !in old(answers) ==> CameFrom(schedule, tasks, n, answers[n])
    {
      hide AllTasksOk, OneAsks, ArenaOk, HintsOk;
      for i := 0 to |schedule|
        invariant Valid() && SameNames(old(tasks), tasks)
        invariant forall n :: n in old(answers) ==> n in answers && answers[n] == old(answers)[n]
        invariant forall n :: n in answers && n !in old(answers) ==> CameFrom(schedule, tasks, n, answers[n])
      {
        ghost var before, tasksThen := answers, tasks;
        Take(schedule[i]);
        forall n | n in answers && n !in old(answers) ensures CameFrom(schedule, tasks, n, answers[n]) {
          if n in before {
            StillCame(schedule, tasksThen, tasks, n, before[n]);
          }
          assert n !in before ==> AnsweredAt(schedule, tasks, n, answers[n], i, schedule[i].task);
        }
      }
      SameEntry(tasks, stored, inFlight, arena, answers);
    }
  }

  /** Whether a step changes anything. */
  ghost predicate Possible(step: Step, tasks: seq<Task>) {
    match step
    case Spawn(_) => true
    case Poll(t, _) => t < |tasks| && (tasks[t].Fresh? || (tasks[t].Listening? && tasks[t].notified))
    case Answer(t, _) => t < |tasks| && tasks[t].Asking?
  }

  /** Tasks stay, and each keeps asking for its package. */
  ghost predicate SameNames(tasks: seq<Task>, tasks': seq<Task>) {
    |tasks| <= |tasks'| && forall t :: 0 <= t < |tasks| ==> tasks'[t].name == tasks[t].name
  }

  /** At step `i` the provider gave this answer to task `t`, which asked for the package. */
  ghost predicate AnsweredAt(schedule: seq<Step>, tasks: seq<Task>, n: Name, candidates: Candidates, i: nat,
                             t: TaskId) {
    i < |schedule| && schedule[i] == Answer(t, candidates) && t < |tasks| && tasks[t].name == n
  }

  /** The candidates are an answer of the provider to a task that asked for the package. */
  ghost predicate CameFrom(schedule: seq<Step>, tasks: seq<Task>, n: Name, candidates: Candidates) {
    exists i: nat, t: TaskId :: AnsweredAt(schedule, tasks, n, candidates, i, t)
  }

  lemma StillCame(schedule: seq<Step>, tasks: seq<Task>, tasks': seq<Task>, n: Name, candidates: Candidates)
    requires CameFrom(schedule, tasks, n, candidates) && SameNames(tasks, tasks')
    ensures CameFrom(schedule, tasks', n, candidates)
  {
    var i: nat, t: TaskId :| AnsweredAt(schedule, tasks, n, candidates, i, t);
    assert AnsweredAt(schedule, tasks', n, candidates, i, t);
  }

  /** A listening task of the package is notified; other tasks do not change. */
  function Notified(t: Task, n: Name): Task {
    if t.Listening? && t.name == n then Listening(n, true) else t
  }

  function NotifyAll(tasks: seq<Task>, n: Name): (r: seq<Task>)
    ensures |r| == |tasks| && forall t :: 0 <= t < |r| ==> r[t] == Notified(tasks[t], n)
  {
    seq(|tasks|, t requires 0 <= t < |tasks| => Notified(tasks[t], n))
  }

  lemma SameEntry(tasks: seq<Task>, stored: map<Name, CandidatesId>, inFlight: set<Name>, arena: seq<Candidates>,
                  answers: map<Name, Candidates>)
    requires AllTasksOk(tasks, stored, inFlight) && ArenaOk(arena, stored, answers)
    ensures forall t, u :: 0 <= t < |tasks| && 0 <= u < |tasks| && tasks[t].Done? && tasks[u].Done? ==>
              (tasks[t].id == tasks[u].id <==> tasks[t].name == tasks[u].name)
    ensures forall t :: 0 <= t < |tasks| && tasks[t].Done? ==>
              tasks[t].name in answers && tasks[t].id < |arena| && arena[tasks[t].id] == answers[tasks[t].name]
  {
    forall t | 0 <= t < |tasks| ensures TaskOk(tasks[t], stored, inFlight) {
    }
  }

  lemma Spawned(tasks: seq<Task>, inFlight: set<Name>, name: Name)
    requires OneAsks(tasks, inFlight)
    ensures OneAsks(tasks + [Fresh(name)], inFlight)
  {
    var tasks' := tasks + [Fresh(name)];
    forall t: TaskId, n: Name ensures Asks(tasks', t, n) <==> Asks(tasks, t, n) {
    }
    forall n | n in inFlight ensures exists t: TaskId :: Asks(tasks', t, n) {
      var t: TaskId :| Asks(tasks, t, n);
      assert Asks(tasks', t, n);
    }
  }

  /** One task moves, and asks only if nobody else does. */
  lemma Moved(tasks: seq<Task>, tasks': seq<Task>, inFlight: set<Name>, inFlight': set<Name>, t: TaskId, n: Name)
    requires OneAsks(tasks, inFlight) && t < |tasks| && !tasks[t].Asking? && |tasks'| == |tasks| &&
             tasks' == tasks[t := tasks'[t]]
    requires forall u: TaskId, m: Name :: Asks(tasks, u, m) ==> m in inFlight
    requires if tasks'[t].Asking? then tasks'[t] == Asking(n) && n !in inFlight && inFlight' == inFlight + {n}
             else inFlight' == inFlight
    ensures OneAsks(tasks', inFlight')
  {
    forall u: TaskId, m: Name ensures Asks(tasks', u, m) <==> Asks(tasks, u, m) || (u == t && tasks'[t] == Asking(m)) {
    }
    forall m | m in inFlight' ensures exists u: TaskId :: Asks(tasks', u, m) {
      if m in inFlight {
        var u: TaskId :| Asks(tasks, u, m);
        assert Asks(tasks', u, m);
      } else {
        assert Asks(tasks', t, m);
      }
    }
  }

  lemma Answered(asked: seq<Name>, stored: map<Name, CandidatesId>, inFlight: set<Name>, arena: seq<Candidates>,
                 answers: map<Name, Candidates>,
                 hints: set<SolvableId>, tasks: seq<Task>, t: TaskId, candidates: Candidates)
    requires AllTasksOk(tasks, stored, inFlight) && OneAsks(tasks, inFlight) && AskedOnce(asked, stored, inFlight)
    requires ArenaOk(arena, stored, answers) && HintsOk(hints, arena) && t < |tasks| && tasks[t].Asking?
    ensures var n, id := tasks[t].name, |arena|;
      var stored', inFlight', tasks' := stored[n := id], inFlight - {n}, NotifyAll(tasks, n)[t := Done(n, id)];
      && AllTasksOk(tasks', stored', inFlight') && OneAsks(tasks', inFlight') && AskedOnce(asked, stored', inFlight')
      && ArenaOk(arena + [candidates], stored', answers[n := candidates]) && n !in answers
      && HintsOk(hints + (set s | s in candidates.Hinted()), arena + [candidates])
  {
    hide HintsOk;
    var n, id := tasks[t].name, |arena|;
    var stored', inFlight', tasks' := stored[n := id], inFlight - {n}, NotifyAll(tasks, n)[t := Done(n, id)];
    assert Asks(tasks, t, n) && TaskOk(tasks[t], stored, inFlight);
    AnsweredTasks(tasks, stored, inFlight, t, id);
    AnsweredHints(hints, arena, candidates);
    forall u: TaskId, m: Name ensures Asks(tasks', u, m) <==> Asks(tasks, u, m) && u != t {
    }
    forall m | m in inFlight' ensures exists u: TaskId :: Asks(tasks', u, m) {
      var u: TaskId :| Asks(tasks, u, m);
      assert Asks(tasks', u, m);
    }
  }

  lemma AnsweredTasks(tasks: seq<Task>, stored: map<Name, CandidatesId>, inFlight: set<Name>, t: TaskId,
                      id: CandidatesId)
    requires AllTasksOk(tasks, stored, inFlight) && OneAsks(tasks, inFlight) && t < |tasks| && tasks[t].Asking? &&
             tasks[t].name !in stored
    ensures var n := tasks[t].name; AllTasksOk(NotifyAll(tasks, n)[t := Done(n, id)], stored[n := id], inFlight - {n})
  {
    var n := tasks[t].name;
    var tasks' := NotifyAll(tasks, n)[t := Done(n, id)];
    forall u | 0 <= u < |tasks'| ensures TaskOk(tasks'[u], stored[n := id], inFlight - {n}) {
      assert TaskOk(tasks[u], stored, inFlight);
      assert Asks(tasks, t, n) && (tasks[u] == Asking(n) ==> Asks(tasks, u, n));
    }
  }

  lemma AnsweredHints(hints: set<SolvableId>, arena: seq<Candidates>, candidates: Candidates)
    requires HintsOk(hints, arena)
    ensures HintsOk(hints + (set s | s in candidates.Hinted()), arena + [candidates])
  {
    var arena', hints' := arena + [candidates], hints + (set s | s in candidates.Hinted());
    forall s ensures s in hints' <==> exists i :: 0 <= i < |arena'| && s in arena'[i].Hinted() {
      if s in candidates.Hinted() {
        assert s in arena'[|arena|].Hinted();
      }
      if i :| 0 <= i < |arena| && s in arena[i].Hinted() {
        assert s in arena'[i].Hinted();
      }
    }
  }

  /** Something can always be done for a task that is not finished: poll it, or have the provider answer the one
      task it waits for. */
  lemma NoDeadlock(tasks: seq<Task>, stored: map<Name, CandidatesId>, inFlight: set<Name>, t: TaskId)
    requires AllTasksOk(tasks, stored, inFlight) && OneAsks(tasks, inFlight) && t < |tasks| && !tasks[t].Done? &&
             !tasks[t].Cancelled?
    ensures tasks[t].Fresh? || (tasks[t].Listening? && tasks[t].notified) ||
            exists u: TaskId :: Asks(tasks, u, tasks[t].name)
  {
    assert TaskOk(tasks[t], stored, inFlight);
    if tasks[t].Asking? {
      assert Asks(tasks, t, tasks[t].name);
    }
  }
}
