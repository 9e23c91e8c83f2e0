// The read_media run: one thread per file sends its item on a channel, the
// main thread collects what arrives and sorts it by input index. A thread may
// die before it sends.
module ReadMediaRunner {
  import opened Wrappers
  import opened Json

  type Value = Json<string>

  // What a worker sends: its input index and its result.
  datatype Indexed = Indexed(index: nat, item: Value)

  // A worker owns a sender from before it is spawned (the main thread keeps
  // one) until it ends, with or without having sent its item.
  datatype Worker = Unborn | Running | Sent | Ended(sent: bool)

  datatype Threads = Threads(workers: seq<Worker>, queue: seq<Indexed>)

  datatype Move = Send | End | Die

  predicate HasSent(w: Worker) { w.Sent? || (w.Ended? && w.sent) }

  predicate CanMove(t: Threads, i: nat, move: Move) {
    i < |t.workers| &&
    match move
    case Send | Die => t.workers[i] == Running
    case End => t.workers[i] == Sent
  }

  function Moved(t: Threads, items: seq<Value>, i: nat, move: Move): Threads
    requires CanMove(t, i, move) && |t.workers| == |items|
  {
    match move
    case Send => Threads(t.workers[i := Sent], t.queue + [Indexed(i, items[i])])
    case End => t.(workers := t.workers[i := Ended(true)])
    case Die => t.(workers := t.workers[i := Ended(false)])
  }

  // The items of the workers that sent theirs, in input order.
  function Survivors(workers: seq<Worker>, items: seq<Value>, from: nat): seq<Indexed>
    requires |workers| == |items| && from <= |items|
    decreases |items| - from
  {
    if from == |items| then []
    else if HasSent(workers[from]) then [Indexed(from, items[from])] + Survivors(workers, items, from + 1)
    else Survivors(workers, items, from + 1)
  }

  function Values(indexed: seq<Indexed>): seq<Value> {
    seq(|indexed|, i requires 0 <= i < |indexed| => indexed[i].item)
  }

  // ---------------------------------------------------------------- sorting

  predicate Sorted(s: seq<Indexed>) {
    forall i, j :: 0 <= i < j < |s| ==> s[i].index <= s[j].index
  }

  ghost predicate SortOf(sorted: seq<Indexed>, s: seq<Indexed>) {
    Sorted(sorted) && multiset(sorted) == multiset(s)
  }

  predicate StrictlySorted(s: seq<Indexed>) {
    forall i, j :: 0 <= i < j < |s| ==> s[i].index < s[j].index
  }

  predicate AtLeast(s: seq<Indexed>, from: nat) {
    forall k :: 0 <= k < |s| ==> from <= s[k].index
  }

  lemma PutInFront(x: Indexed, s: seq<Indexed>)
    requires StrictlySorted(s) && AtLeast(s, x.index + 1)
    ensures StrictlySorted([x] + s) && AtLeast([x] + s, x.index)
  {
  }

  lemma {:induction false} SurvivorsAreSorted(workers: seq<Worker>, items: seq<Value>, from: nat)
    requires |workers| == |items| && from <= |items|
    ensures StrictlySorted(Survivors(workers, items, from)) && AtLeast(Survivors(workers, items, from), from)
    decreases |items| - from
  {
    if from < |items| {
      SurvivorsAreSorted(workers, items, from + 1);
      PutInFront(Indexed(from, items[from]), Survivors(workers, items, from + 1));
    }
  }

  lemma {:induction false} FullHouse(workers: seq<Worker>, items: seq<Value>, from: nat)
    requires |workers| == |items| && from <= |items|
    ensures |Survivors(workers, items, from)| <= |items| - from
    ensures |Survivors(workers, items, from)| == |items| - from ==> forall j :: from <= j < |items| ==> HasSent(workers[j])
    decreases |items| - from
  {
    if from < |items| {
      FullHouse(workers, items, from + 1);
    }
  }

  lemma FrontMatches(sorted: seq<Indexed>, strict: seq<Indexed>)
    requires Sorted(sorted) && StrictlySorted(strict) && multiset(sorted) == multiset(strict) && sorted != []
    ensures strict != [] && sorted[0] == strict[0]
  {
    assert sorted[0] in multiset(strict);
    var k :| 0 <= k < |strict| && strict[k] == sorted[0];
    assert strict[0] in multiset(sorted);
    var m :| 0 <= m < |sorted| && sorted[m] == strict[0];
  }

  lemma FrontAndRest(s: seq<Indexed>)
    requires s != []
    ensures s == [s[0]] + s[1..] && multiset(s[1..]) == multiset(s) - multiset{s[0]}
  {
    assert s == [s[0]] + s[1..];
  }

  lemma RestIsSorted(sorted: seq<Indexed>, strict: seq<Indexed>)
    requires Sorted(sorted) && StrictlySorted(strict)
    ensures sorted != [] ==> Sorted(sorted[1..])
    ensures strict != [] ==> StrictlySorted(strict[1..])
  {
  }

  // A list without repeated keys has only one sorted order.
  lemma {:induction false} SortingIsUnique(sorted: seq<Indexed>, strict: seq<Indexed>)
    requires Sorted(sorted) && StrictlySorted(strict) && multiset(sorted) == multiset(strict)
    ensures sorted == strict
    decreases |sorted|
  {
    if sorted == [] {
      assert |multiset(strict)| == 0;
    } else {
      FrontMatches(sorted, strict);
      FrontAndRest(sorted);
      FrontAndRest(strict);
      RestIsSorted(sorted, strict);
      SortingIsUnique(sorted[1..], strict[1..]);
    }
  }

  // ------------------------------------------------- what is in the channel

  // Received and queued items together are those of the workers that sent.
  ghost predicate Accounted(t: Threads, received: seq<Indexed>, items: seq<Value>) {
    |t.workers| == |items| && multiset(received + t.queue) == multiset(Survivors(t.workers, items, 0))
  }

  lemma {:induction false} SameSurvivors(before: seq<Worker>, after: seq<Worker>, items: seq<Value>, from: nat)
    requires |before| == |after| == |items| && from <= |items|
    requires forall j :: from <= j < |items| ==> HasSent(before[j]) == HasSent(after[j])
    ensures Survivors(after, items, from) == Survivors(before, items, from)
    decreases |items| - from
  {
    if from < |items| {
      SameSurvivors(before, after, items, from + 1);
    }
  }

  // A worker that sends puts its item at its place among the survivors.
  lemma {:induction false} OneMoreSurvivor(workers: seq<Worker>, items: seq<Value>, i: nat, from: nat)
    returns (front: seq<Indexed>)
    requires |workers| == |items| && from <= i < |items| && workers[i] == Running
    ensures Survivors(workers, items, from) == front + Survivors(workers, items, i + 1)
    ensures Survivors(workers[i := Sent], items, from) == front + ([Indexed(i, items[i])] + Survivors(workers, items, i + 1))
    decreases |items| - from
  {
    var after := workers[i := Sent];
    if from == i {
      SameSurvivors(workers, after, items, from + 1);
      front := [];
    } else {
      front := OneMoreSurvivor(workers, items, i, from + 1);
      if HasSent(workers[from]) {
        var here := Indexed(from, items[from]);
        Regroup(here, front, Survivors(workers, items, i + 1));
        Regroup(here, front, [Indexed(i, items[i])] + Survivors(workers, items, i + 1));
        front := [here] + front;
      }
    }
  }

  lemma Regroup<T>(x: T, front: seq<T>, back: seq<T>)
    ensures [x] + (front + back) == ([x] + front) + back
  {
  }

  lemma MovedToTheEnd<T>(front: seq<T>, x: T, back: seq<T>)
    ensures multiset(front + ([x] + back)) == multiset((front + back) + [x])
  {
  }

  lemma AccountedSpawn(t: Threads, received: seq<Indexed>, items: seq<Value>, i: nat)
    requires Accounted(t, received, items) && i < |items| && t.workers[i].Unborn?
    ensures Accounted(t.(workers := t.workers[i := Running]), received, items)
  {
    SameSurvivors(t.workers, t.workers[i := Running], items, 0);
  }

  lemma AccountedMove(t: Threads, received: seq<Indexed>, items: seq<Value>, i: nat, move: Move)
    requires Accounted(t, received, items) && CanMove(t, i, move)
    ensures Accounted(Moved(t, items, i, move), received, items)
  {
    if move == Send {
      var front := OneMoreSurvivor(t.workers, items, i, 0);
      MovedToTheEnd(front, Indexed(i, items[i]), Survivors(t.workers, items, i + 1));
      assert received + Moved(t, items, i, move).queue == (received + t.queue) + [Indexed(i, items[i])];
    } else {
      SameSurvivors(t.workers, Moved(t, items, i, move).workers, items, 0);
    }
  }

  lemma AccountedReceive(t: Threads, received: seq<Indexed>, items: seq<Value>)
    requires Accounted(t, received, items) && t.queue != []
    ensures Accounted(t.(queue := t.queue[1..]), received + [t.queue[0]], items)
  {
    assert (received + [t.queue[0]]) + t.queue[1..] == received + t.queue;
  }

  predicate Silent(t: Threads) {
    forall j :: 0 <= j < |t.workers| ==> t.workers[j].Ended?
  }

  // Nobody will send any more: what was received is final.
  predicate Settled(t: Threads) {
    forall j :: 0 <= j < |t.workers| ==> t.workers[j].Sent? || t.workers[j].Ended?
  }

  // A full count, or an empty channel without senders, leaves nothing behind.
  lemma NothingLeft(t: Threads, received: seq<Indexed>, items: seq<Value>)
    requires Accounted(t, received, items)
    requires |received| == |items| || (t.queue == [] && Silent(t))
    ensures Settled(t) && multiset(received) == multiset(Survivors(t.workers, items, 0))
  {
    FullHouse(t.workers, items, 0);
    assert |received + t.queue| == |multiset(received + t.queue)| == |Survivors(t.workers, items, 0)|;
    assert received + [] == received;
  }

  // Whatever order the items arrived in, sorting gives the survivors in input order.
  lemma SortedIsSurvivors(workers: seq<Worker>, received: seq<Indexed>, items: seq<Value>, sorted: seq<Indexed>)
    requires |workers| == |items| && multiset(received) == multiset(Survivors(workers, items, 0))
    requires SortOf(sorted, received)
    ensures sorted == Survivors(workers, items, 0)
  {
    SurvivorsAreSorted(workers, items, 0);
    SortingIsUnique(sorted, Survivors(workers, items, 0));
  }

  lemma {:induction false} EverySurvivor(workers: seq<Worker>, items: seq<Value>, from: nat)
    requires |workers| == |items| && from <= |items|
    requires forall j :: from <= j < |items| ==> HasSent(workers[j])
    ensures Values(Survivors(workers, items, from)) == items[from..]
    decreases |items| - from
  {
    if from < |items| {
      EverySurvivor(workers, items, from + 1);
      assert Values(Survivors(workers, items, from)) == [items[from]] + Values(Survivors(workers, items, from + 1));
    }
  }

  // ------------------------------------------------------ the whole machine

  datatype Main = Spawning(next: nat) | Receiving(turn: nat) | Finished

  datatype State = State(threads: Threads, main: Main, received: seq<Indexed>)

  // One step of a worker, or of the main thread.
  datatype Step = Work(i: nat, move: Move) | Spawn | DropSender | Receive | Disconnect | LoopOver

  predicate Enabled(s: State, step: Step, items: seq<Value>) {
    match step
    case Work(i, move) => CanMove(s.threads, i, move)
    case Spawn => s.main.Spawning? && s.main.next < |items|
    case DropSender => s.main.Spawning? && s.main.next == |items|
    case Receive => s.main.Receiving? && s.main.turn < |items| && s.threads.queue != []
    case Disconnect => s.main.Receiving? && s.main.turn < |items| && s.threads.queue == [] && Silent(s.threads)
    case LoopOver => s.main.Receiving? && s.main.turn == |items|
  }

  function Next(s: State, step: Step, items: seq<Value>): State
    requires Enabled(s, step, items) && |s.threads.workers| == |items|
  {
    match step
    case Work(i, move) => s.(threads := Moved(s.threads, items, i, move))
    case Spawn =>
      s.(threads := s.threads.(workers := s.threads.workers[s.main.next := Running]), main := Spawning(s.main.next + 1))
    case DropSender => s.(main := Receiving(0))
    case Receive =>
      State(s.threads.(queue := s.threads.queue[1..]), Receiving(s.main.turn + 1), s.received + [s.threads.queue[0]])
    case Disconnect | LoopOver => s.(main := Finished)
  }

  function Initial(items: seq<Value>): State {
    State(Threads(seq(|items|, i => Unborn), []), Spawning(0), [])
  }

  ghost predicate Inv(s: State, items: seq<Value>) {
    && Accounted(s.threads, s.received, items)
    && match s.main
       case Spawning(next) =>
         s.received == [] && next <= |items| && forall j :: 0 <= j < |items| ==> (s.threads.workers[j].Unborn? <==> next <= j)
       case Receiving(turn) =>
         turn == |s.received| <= |items| && forall j :: 0 <= j < |items| ==> !s.threads.workers[j].Unborn?
       case Finished => |s.received| == |items| || (s.threads.queue == [] && Silent(s.threads))
  }

  lemma InvInitial(items: seq<Value>)
    ensures Inv(Initial(items), items)
  {
    NoSurvivors(Initial(items).threads.workers, items, 0);
  }

  lemma {:induction false} NoSurvivors(workers: seq<Worker>, items: seq<Value>, from: nat)
    requires |workers| == |items| && from <= |items| && forall j :: from <= j < |items| ==> !HasSent(workers[j])
    ensures Survivors(workers, items, from) == []
    decreases |items| - from
  {
    if from < |items| {
      NoSurvivors(workers, items, from + 1);
    }
  }

  lemma InvWork(s: State, i: nat, move: Move, items: seq<Value>)
    requires Inv(s, items) && CanMove(s.threads, i, move)
    ensures Inv(s.(threads := Moved(s.threads, items, i, move)), items)
  {
    AccountedMove(s.threads, s.received, items, i, move);
  }

  lemma InvStep(s: State, step: Step, items: seq<Value>)
    requires Inv(s, items) && Enabled(s, step, items)
    ensures Inv(Next(s, step, items), items)
  {
    match step
    case Work(i, move) => InvWork(s, i, move, items);
    case Spawn => AccountedSpawn(s.threads, s.received, items, s.main.next);
    case Receive => AccountedReceive(s.threads, s.received, items);
    case _ =>
  }

  predicate Legal(s: State, schedule: seq<Step>, items: seq<Value>)
    requires |s.threads.workers| == |items|
    decreases |schedule|
  {
    schedule == [] || (Enabled(s, schedule[0], items) && Legal(Next(s, schedule[0], items), schedule[1..], items))
  }

  function Run(s: State, schedule: seq<Step>, items: seq<Value>): State
    requires |s.threads.workers| == |items| && Legal(s, schedule, items)
    decreases |schedule|
  {
    if schedule == [] then s else Run(Next(s, schedule[0], items), schedule[1..], items)
  }

  function Rank(w: Worker): nat {
    match w
    case Unborn => 3
    case Running => 2
    case Sent => 1
    case Ended(_) => 0
  }

  function RankSum(workers: seq<Worker>): nat {
    if workers == [] then 0 else Rank(workers[0]) + RankSum(workers[1..])
  }

  function MainRank(main: Main, n: nat): nat {
    match main
    case Spawning(_) => n + 2
    case Receiving(turn) => if turn <= n then n + 1 - turn else 0
    case Finished => 0
  }

  // How many steps can still be taken.
  function Measure(s: State, items: seq<Value>): nat { RankSum(s.threads.workers) + MainRank(s.main, |items|) }

  lemma {:induction false} RankSumFalls(workers: seq<Worker>, i: nat, w: Worker)
    requires i < |workers| && Rank(w) < Rank(workers[i])
    ensures RankSum(workers[i := w]) < RankSum(workers)
    decreases i
  {
    if i > 0 {
      RankSumFalls(workers[1..], i - 1, w);
      assert workers[i := w][1..] == workers[1..][i - 1 := w];
    } else {
      assert workers[i := w][1..] == workers[1..];
    }
  }

  lemma EveryStepIsProgress(s: State, step: Step, items: seq<Value>)
    requires Inv(s, items) && Enabled(s, step, items)
    ensures Measure(Next(s, step, items), items) < Measure(s, items)
  {
    match step
    case Work(i, move) => RankSumFalls(s.threads.workers, i, Moved(s.threads, items, i, move).workers[i]);
    case Spawn => RankSumFalls(s.threads.workers, s.main.next, Running);
    case _ =>
  }

  // The main thread is blocked only while some worker can still move.
  lemma NeverStuck(s: State, items: seq<Value>)
    requires Inv(s, items) && s.main != Finished
    ensures exists step: Step :: Enabled(s, step, items)
    ensures Silent(s.threads) ==> exists step: Step :: !step.Work? && Enabled(s, step, items)
  {
    match s.main
    case Spawning(next) =>
      assert Enabled(s, if next < |items| then Spawn else DropSender, items);
    case Receiving(turn) =>
      if turn == |items| {
        assert Enabled(s, LoopOver, items);
      } else if s.threads.queue != [] {
        assert Enabled(s, Receive, items);
      } else if Silent(s.threads) {
        assert Enabled(s, Disconnect, items);
      } else {
        var j :| 0 <= j < |items| && !s.threads.workers[j].Ended?;
        assert Enabled(s, Work(j, if s.threads.workers[j] == Sent then End else Send), items);
      }
    case Finished =>
  }

  // From wherever it is, the program can run to its end.
  lemma {:induction false} FinishingSchedule(s: State, items: seq<Value>) returns (schedule: seq<Step>)
    requires Inv(s, items)
    ensures Legal(s, schedule, items) && Run(s, schedule, items).main == Finished
    decreases Measure(s, items)
  {
    if s.main == Finished {
      schedule := [];
    } else {
      NeverStuck(s, items);
      var step :| Enabled(s, step, items);
      InvStep(s, step, items);
      EveryStepIsProgress(s, step, items);
      var rest := FinishingSchedule(Next(s, step, items), items);
      schedule := [step] + rest;
      assert schedule[1..] == rest;
    }
  }

  // No run takes more steps than the measure says.
  lemma {:induction false} RunsAreShort(s: State, schedule: seq<Step>, items: seq<Value>)
    requires Inv(s, items) && Legal(s, schedule, items)
    ensures |schedule| <= Measure(s, items)
    decreases |schedule|
  {
    if schedule != [] {
      InvStep(s, schedule[0], items);
      EveryStepIsProgress(s, schedule[0], items);
      RunsAreShort(Next(s, schedule[0], items), schedule[1..], items);
    }
  }

  lemma {:induction false} InvRun(s: State, schedule: seq<Step>, items: seq<Value>)
    requires Inv(s, items) && Legal(s, schedule, items)
    ensures Inv(Run(s, schedule, items), items)
    ensures Measure(Run(s, schedule, items), items) + |schedule| <= Measure(s, items)
    decreases |schedule|
  {
    if schedule != [] {
      InvStep(s, schedule[0], items);
      EveryStepIsProgress(s, schedule[0], items);
      InvRun(Next(s, schedule[0], items), schedule[1..], items);
    }
  }

  // Every schedule, with any set of workers dying before they send, is finite,
  // and one that cannot go on has finished; the sorted list is then exactly
  // the survivors' results in input order, and all of them when none died.
  lemma EverySchedule(items: seq<Value>, schedule: seq<Step>, sorted: seq<Indexed>)
    requires Legal(Initial(items), schedule, items)
    ensures |schedule| <= 4 * |items| + 2
    ensures var end := Run(Initial(items), schedule, items);
      && |end.threads.workers| == |items|
      && (end.main == Finished || exists step: Step :: Enabled(end, step, items))
      && (end.main == Finished && SortOf(sorted, end.received) ==>
            && Settled(end.threads)
            && sorted == Survivors(end.threads.workers, items, 0)
            && ((forall j :: 0 <= j < |items| ==> end.threads.workers[j] != Ended(false)) ==> Values(sorted) == items))
  {
    var start := Initial(items);
    InvInitial(items);
    InvRun(start, schedule, items);
    AllUnborn(start.threads.workers);
    var end := Run(start, schedule, items);
    if end.main != Finished {
      NeverStuck(end, items);
    } else if SortOf(sorted, end.received) {
      NothingLeft(end.threads, end.received, items);
      SortedIsSurvivors(end.threads.workers, end.received, items, sorted);
      if forall j :: 0 <= j < |items| ==> end.threads.workers[j] != Ended(false) {
        EverySurvivor(end.threads.workers, items, 0);
      }
    }
  }

  lemma {:induction false} AllUnborn(workers: seq<Worker>)
    requires forall j :: 0 <= j < |workers| ==> workers[j] == Unborn
    ensures RankSum(workers) == 3 * |workers|
  {
    if workers != [] {
      AllUnborn(workers[1..]);
    }
  }

  // ------------------------------------------------------- the code itself

  // Any number of worker moves, in any order.
  method RunSome(t: Threads, items: seq<Value>, ghost received: seq<Indexed>) returns (r: Threads)
    requires Accounted(t, received, items)
    ensures Accounted(r, received, items)
    ensures forall j :: 0 <= j < |items| ==> (r.workers[j].Unborn? <==> t.workers[j].Unborn?)
    ensures |t.queue| <= |r.queue|
  {
    r := t;
    var more: bool := *;
    while more
      invariant Accounted(r, received, items)
      invariant forall j :: 0 <= j < |items| ==> (r.workers[j].Unborn? <==> t.workers[j].Unborn?)
      invariant |t.queue| <= |r.queue|
      decreases RankSum(r.workers), more
    {
      var i: nat, move: Move := *, *;
      more := *;
      if CanMove(r, i, move) {
        AccountedMove(r, received, items, i, move);
        RankSumFalls(r.workers, i, Moved(r, items, i, move).workers[i]);
        r := Moved(r, items, i, move);
      } else {
        more := false;
      }
    }
  }

  // rx.recv: blocks while the channel is empty and a sender is alive.
  method Recv(t: Threads, items: seq<Value>, ghost received: seq<Indexed>) returns (r: Threads, item: Option<Indexed>)
    requires Accounted(t, received, items) && Born(t)
    ensures |r.workers| == |items| && Born(r)
    ensures item.Some? ==> Accounted(r, received + [item.value], items)
    ensures item.None? ==> Accounted(r, received, items) && r.queue == [] && Silent(r)
  {
    r := RunSome(t, items, received);
    r := AwaitItem(r, items, received);
    if r.queue == [] {
      return r, None;
    }
    item := Some(r.queue[0]);
    AccountedReceive(r, received, items);
    r := r.(queue := r.queue[1..]);
  }

  // Lets workers move until an item is queued or no sender is left.
  method AwaitItem(t: Threads, items: seq<Value>, ghost received: seq<Indexed>) returns (r: Threads)
    requires Accounted(t, received, items) && Born(t)
    ensures Accounted(r, received, items) && Born(r) && (r.queue == [] ==> Silent(r))
  {
    r := t;
    while r.queue == [] && !Silent(r)
      invariant Accounted(r, received, items) && Born(r)
      decreases RankSum(r.workers)
    {
      var i :| 0 <= i < |items| && !r.workers[i].Ended?;
      var dies: bool := *;
      var move := if r.workers[i] == Sent then End else if dies then Die else Send;
      AccountedMove(r, received, items, i, move);
      RankSumFalls(r.workers, i, Moved(r, items, i, move).workers[i]);
      r := Moved(r, items, i, move);
    }
  }

  // The library's stable sort, as insertion: equal keys keep their order.
  function Inserted(sorted: seq<Indexed>, item: Indexed): seq<Indexed> {
    if sorted == [] || item.index < sorted[0].index then [item] + sorted
    else [sorted[0]] + Inserted(sorted[1..], item)
  }

  lemma InFront(x: Indexed, s: seq<Indexed>)
    requires Sorted(s) && AtLeast(s, x.index)
    ensures Sorted([x] + s)
  {
  }

  lemma {:induction false} InsertedStays(sorted: seq<Indexed>, item: Indexed, from: nat)
    requires Sorted(sorted) && AtLeast(sorted, from) && from <= item.index
    ensures Sorted(Inserted(sorted, item)) && AtLeast(Inserted(sorted, item), from)
    decreases |sorted|
  {
    if sorted == [] || item.index < sorted[0].index {
      InFront(item, sorted);
    } else {
      InsertedStays(sorted[1..], item, sorted[0].index);
      InFront(sorted[0], Inserted(sorted[1..], item));
    }
  }

  lemma {:induction false} InsertedHolds(sorted: seq<Indexed>, item: Indexed)
    ensures multiset(Inserted(sorted, item)) == multiset(sorted) + multiset{item}
    decreases |sorted|
  {
    if sorted != [] && item.index >= sorted[0].index {
      InsertedHolds(sorted[1..], item);
      assert sorted == [sorted[0]] + sorted[1..];
    }
  }

  method SortByKey(s: seq<Indexed>) returns (r: seq<Indexed>)
    ensures SortOf(r, s)
  {
    r := [];
    for k := 0 to |s|
      invariant SortOf(r, s[..k])
    {
      InsertedStays(r, s[k], 0);
      InsertedHolds(r, s[k]);
      r := Inserted(r, s[k]);
      assert s[..k + 1] == s[..k] + [s[k]];
    }
    assert s[..|s|] == s;
  }

  predicate Born(t: Threads) { forall j :: 0 <= j < |t.workers| ==> !t.workers[j].Unborn? }

  method SpawnWorkers(items: seq<Value>) returns (threads: Threads, workerCount: nat)
    ensures workerCount == |items| && Accounted(threads, [], items) && Born(threads)
  {
    threads, workerCount := Initial(items).threads, 0;
    InvInitial(items);
    for index := 0 to |items|
      invariant workerCount == index && Accounted(threads, [], items)
      invariant forall j :: 0 <= j < |items| ==> (threads.workers[j].Unborn? <==> index <= j)
    {
      AccountedSpawn(threads, [], items, index);
      threads := threads.(workers := threads.workers[index := Running]);
      workerCount := workerCount + 1;
      threads := RunSome(threads, items, []);
    }
  }

  method Collect(t: Threads, items: seq<Value>, workerCount: nat) returns (threads: Threads, indexed: seq<Indexed>)
    requires workerCount == |items| && Accounted(t, [], items) && Born(t)
    ensures |threads.workers| == |items| && Settled(threads)
    ensures multiset(indexed) == multiset(Survivors(threads.workers, items, 0))
  {
    threads, indexed := t, [];
    for turn := 0 to workerCount
      invariant |indexed| == turn && Accounted(threads, indexed, items) && Born(threads)
    {
      var item;
      threads, item := Recv(threads, items, indexed);
      if item.None? {
        break;
      }
      indexed := indexed + [item.value];
    }
    NothingLeft(threads, indexed, items);
  }

  // The results are the survivors' in input order for every choice made above.
  method RunReadMedia(items: seq<Value>) returns (results: seq<Value>, threads: Threads)
    ensures |threads.workers| == |items| && Settled(threads)
    ensures results == Values(Survivors(threads.workers, items, 0))
    ensures (forall j :: 0 <= j < |items| ==> threads.workers[j] != Ended(false)) ==> results == items
  {
    var workerCount, indexed;
    threads, workerCount := SpawnWorkers(items);
    threads, indexed := Collect(threads, items, workerCount);
    var sorted := SortByKey(indexed);
    SortedIsSurvivors(threads.workers, indexed, items, sorted);
    results := Values(sorted);
    if forall j :: 0 <= j < |items| ==> threads.workers[j] != Ended(false) {
      EverySurvivor(threads.workers, items, 0);
    }
  }
}
