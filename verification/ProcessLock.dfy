// The cross-process ownership lock of the gateway: any number of processes run
// acquire and Drop on one lock path, one system call at a time, in any order.
// Every process may also die, or fail to write, at any point.
module ProcessLock {
  import opened Wrappers

  // ---------------------------------------------------------------- states

  // How far one call of acquire, and the drop of the lock it returned, has come.
  datatype Phase =
    | Opened              // the path is opened, the lock not yet tried
    | Locked              // try_lock_exclusive succeeded, old contents still there
    | Writing(done: nat)  // truncated, the first lines of the record written
    | Held                // acquire returned Ok
    | Dropping(locked: bool)  // Drop tried to unlock; true when that failed
    | Removed(locked: bool)   // and tried to remove the path
    | Ended               // no file handle is left

  // The record is whatever lines this call writes about its own process.
  datatype Attempt = Attempt(inode: nat, record: seq<string>, phase: Phase) {
    // The call can still own, or already owns, the lock.
    predicate Live() { phase.Opened? || Owns() }
    predicate Owns() { phase.Locked? || phase.Writing? || phase.Held? }
    // Its handle is the one that keeps the file locked.
    predicate Holds() { Owns() || ((phase.Dropping? || phase.Removed?) && phase.locked) }
  }

  // One file: the holder in the kernel's lock table, and its lines.
  datatype File = File(holder: Option<nat>, content: seq<string>)

  // What the path names, every file ever created there, every attempt.
  datatype State = State(entry: Option<nat>, files: seq<File>, attempts: seq<Attempt>)

  datatype Step =
    | Open(record: seq<string>)
    | TryLock(id: nat)
    | Truncate(id: nat)
    | WriteLine(id: nat)
    | Return(id: nat)
    | Abandon(id: nat)  // a write error, a death, or the end of Drop: the handle closes
    | Unlock(id: nat, works: bool)
    | Unlink(id: nat, works: bool)

  const Init := State(None, [], [])

  function SetPhase(s: State, id: nat, phase: Phase): State
    requires id < |s.attempts|
  {
    s.(attempts := s.attempts[id := s.attempts[id].(phase := phase)])
  }

  function SetFile(s: State, inode: nat, file: File): State
    requires inode < |s.files|
  {
    s.(files := s.files[inode := file])
  }

  predicate Enabled(s: State, step: Step) {
    step.Open? ||
    (step.id < |s.attempts| && s.attempts[step.id].inode < |s.files| &&
     var a := s.attempts[step.id];
     match step
     case Open(_) => true
     case TryLock(_) => a.phase.Opened?
     case Truncate(_) => a.phase.Locked?
     case WriteLine(_) => a.phase.Writing? && a.phase.done < |a.record|
     case Return(_) => a.phase.Writing? && a.phase.done == |a.record|
     case Abandon(_) => !a.phase.Ended?
     case Unlock(_, _) => a.phase.Held?
     case Unlink(_, _) => a.phase.Dropping?)
  }

  function Apply(s: State, step: Step): State
    requires Enabled(s, step)
  {
    if step.Open? then
      if s.entry.Some? then s.(attempts := s.attempts + [Attempt(s.entry.value, step.record, Opened)])
      else State(Some(|s.files|), s.files + [File(None, [])], s.attempts + [Attempt(|s.files|, step.record, Opened)])
    else
      var id := step.id;
      var a := s.attempts[id];
      var f := s.files[a.inode];
      match step
      case TryLock(_) =>
        if f.holder.None? then SetPhase(SetFile(s, a.inode, f.(holder := Some(id))), id, Locked)
        else SetPhase(s, id, Ended)
      case Truncate(_) => SetPhase(SetFile(s, a.inode, f.(content := [])), id, Writing(0))
      case WriteLine(_) =>
        SetPhase(SetFile(s, a.inode, f.(content := f.content + [a.record[a.phase.done]])), id, Writing(a.phase.done + 1))
      case Return(_) => SetPhase(s, id, Held)
      case Abandon(_) =>
        SetPhase(if a.Holds() then SetFile(s, a.inode, f.(holder := None)) else s, id, Ended)
      case Unlock(_, works) =>
        SetPhase(if works then SetFile(s, a.inode, f.(holder := None)) else s, id, Dropping(!works))
      case Unlink(_, works) => SetPhase(if works then s.(entry := None) else s, id, Removed(a.phase.locked))
  }

  // The state after a schedule, when each of its steps is possible in turn.
  function Run(s: State, steps: seq<Step>): Option<State>
    decreases |steps|
  {
    if steps == [] then Some(s)
    else if Enabled(s, steps[0]) then Run(Apply(s, steps[0]), steps[1..])
    else None
  }

  lemma {:induction false} RunConcat(s: State, first: seq<Step>, second: seq<Step>)
    requires Run(s, first).Some?
    ensures Run(s, first + second) == Run(Run(s, first).value, second)
    decreases |first|
  {
    if first == [] {
      assert first + second == second;
    } else {
      RunConcat(Apply(s, first[0]), first[1..], second);
      assert (first + second)[1..] == first[1..] + second;
    }
  }

  // ---------------------------------------------------------------- invariant

  ghost predicate Inv(s: State) {
    && (s.entry.Some? ==> s.entry.value < |s.files|)
    && (forall a :: 0 <= a < |s.attempts| ==> s.attempts[a].inode < |s.files|)
    && (forall i :: 0 <= i < |s.files| && s.files[i].holder.Some? ==>
          && s.files[i].holder.value < |s.attempts|
          && s.attempts[s.files[i].holder.value].Holds()
          && s.attempts[s.files[i].holder.value].inode == i)
    && (forall a :: 0 <= a < |s.attempts| && s.attempts[a].Holds() ==> s.files[s.attempts[a].inode].holder == Some(a))
    && (forall a :: 0 <= a < |s.attempts| ==> RecordInPlace(s, a))
  }

  // The file of an owner holds exactly what that owner has written so far.
  ghost predicate RecordInPlace(s: State, a: nat)
    requires a < |s.attempts| && s.attempts[a].inode < |s.files|
  {
    var x := s.attempts[a];
    match x.phase
    case Writing(done) => done <= |x.record| && s.files[x.inode].content == x.record[..done]
    case Held => s.files[x.inode].content == x.record
    case _ => true
  }

  lemma InvOpen(s: State, record: seq<string>)
    requires Inv(s)
    ensures Inv(Apply(s, Open(record)))
  {
    var s' := Apply(s, Open(record));
    forall a | 0 <= a < |s'.attempts| ensures RecordInPlace(s', a) {
      if a < |s.attempts| {
        assert RecordInPlace(s, a);
      }
    }
  }

  // A step of one call that changes its own phase and, if it holds its file,
  // that file: what the other calls own and have written stays as it was.
  lemma InvOwnStep(s: State, s': State, id: nat)
    requires Inv(s) && id < |s.attempts|
    requires |s'.files| == |s.files| && (s'.entry == s.entry || s'.entry == None)
    requires exists phase :: s'.attempts == s.attempts[id := s.attempts[id].(phase := phase)]
    requires forall i :: 0 <= i < |s.files| && i != s.attempts[id].inode ==> s'.files[i] == s.files[i]
    requires var i := s.attempts[id].inode;
             && (s'.files[i] == s.files[i] || s.attempts[id].Holds() || s.files[i].holder.None?)
             && s'.files[i].holder == (if s'.attempts[id].Holds() then Some(id)
                                       else if s.attempts[id].Holds() then None else s.files[i].holder)
    requires s'.attempts[id].Holds() ==> s.attempts[id].Holds() || s.files[s.attempts[id].inode].holder.None?
    requires RecordInPlace(s', id)
    ensures Inv(s')
  {
    forall a | 0 <= a < |s'.attempts| ensures RecordInPlace(s', a) {
      assert RecordInPlace(s, a);
      if a != id && s.attempts[a].Holds() {
        assert s.files[s.attempts[a].inode].holder == Some(a);
      }
    }
  }

  lemma InvStep(s: State, step: Step)
    requires Inv(s) && Enabled(s, step)
    ensures Inv(Apply(s, step))
  {
    if step.Open? {
      InvOpen(s, step.record);
    } else {
      var s' := Apply(s, step);
      var x := s.attempts[step.id];
      assert RecordInPlace(s, step.id);
      assert s'.attempts == s.attempts[step.id := x.(phase := s'.attempts[step.id].phase)];
      if step.WriteLine? {
        assert x.record[..x.phase.done] + [x.record[x.phase.done]] == x.record[..x.phase.done + 1];
      } else if step.Return? {
        assert x.record[..x.phase.done] == x.record;
      }
      InvOwnStep(s, s', step.id);
    }
  }

  lemma {:induction false} InvRun(s: State, steps: seq<Step>)
    requires Inv(s) && Run(s, steps).Some?
    ensures Inv(Run(s, steps).value)
    decreases |steps|
  {
    if steps != [] {
      InvStep(s, steps[0]);
      InvRun(Apply(s, steps[0]), steps[1..]);
    }
  }

  // ---------------------------------------------------------------- what every schedule keeps

  // Two calls that own the lock at the same time own different files, so at
  // most one owns the file the path names; and a call that returned Ok finds
  // its own complete record in its file until it drops the lock.
  lemma OneOwnerPerFile(steps: seq<Step>, a: nat, b: nat)
    requires Run(Init, steps).Some?
    requires var s := Run(Init, steps).value;
             && a < |s.attempts| && b < |s.attempts| && a != b
             && s.attempts[a].Owns() && s.attempts[b].Owns()
    ensures var s := Run(Init, steps).value; s.attempts[a].inode != s.attempts[b].inode
  {
    InvRun(Init, steps);
  }

  lemma OwnerFindsItsRecord(steps: seq<Step>, a: nat)
    requires Run(Init, steps).Some?
    requires var s := Run(Init, steps).value; a < |s.attempts| && s.attempts[a].phase.Held?
    ensures var s := Run(Init, steps).value;
            && s.attempts[a].inode < |s.files|
            && s.files[s.attempts[a].inode] == File(Some(a), s.attempts[a].record)
  {
    InvRun(Init, steps);
    assert RecordInPlace(Run(Init, steps).value, a);
  }

  // ---------------------------------------------------------------- mutual exclusion

  // Two processes were both told they own the path, and neither has dropped.
  ghost predicate TwoOwners(s: State) {
    exists a, b :: 0 <= a < b < |s.attempts| && s.attempts[a].phase.Held? && s.attempts[b].phase.Held?
  }

  // A live handle to a file the path no longer names.
  predicate Orphan(s: State, a: nat) {
    a < |s.attempts| && s.attempts[a].Live() && s.entry != Some(s.attempts[a].inode)
  }

  ghost predicate HasOrphan(s: State) { exists a: nat :: Orphan(s, a) }

  // Drop's remove_file is about to take away the entry of a file that some
  // other call has open and may still own.
  ghost predicate RacingUnlink(s: State, step: Step) {
    step.Unlink? && step.works && exists a :: 0 <= a < |s.attempts| && s.attempts[a].Live() && s.entry == Some(s.attempts[a].inode)
  }

  lemma RaceMakesOrphan(s: State, step: Step)
    requires Inv(s) && Enabled(s, step) && RacingUnlink(s, step)
    ensures HasOrphan(Apply(s, step))
  {
    var a :| 0 <= a < |s.attempts| && s.attempts[a].Live() && s.entry == Some(s.attempts[a].inode);
    assert Orphan(Apply(s, step), a);
  }

  lemma OrphanNeedsRace(s: State, step: Step, a: nat)
    requires Inv(s) && Enabled(s, step) && Orphan(Apply(s, step), a)
    ensures Orphan(s, a) || RacingUnlink(s, step)
  {
  }

  // Only a racing unlink ever creates an orphan.
  lemma OrphanStep(s: State, step: Step)
    requires Inv(s) && Enabled(s, step) && !HasOrphan(s)
    ensures HasOrphan(Apply(s, step)) <==> RacingUnlink(s, step)
  {
    if RacingUnlink(s, step) {
      RaceMakesOrphan(s, step);
    }
    if HasOrphan(Apply(s, step)) {
      var a: nat :| Orphan(Apply(s, step), a);
      OrphanNeedsRace(s, step, a);
    }
  }

  lemma NoOrphanOneOwner(s: State)
    requires Inv(s) && !HasOrphan(s)
    ensures !TwoOwners(s)
  {
    forall a | 0 <= a < |s.attempts| && s.attempts[a].Live() ensures s.entry == Some(s.attempts[a].inode) {
      assert !Orphan(s, a);
    }
  }

  // Some step of the schedule is a racing unlink.
  ghost predicate HasRace(s: State, steps: seq<Step>)
    requires Run(s, steps).Some?
    decreases |steps|
  {
    steps != [] && (RacingUnlink(s, steps[0]) || HasRace(Apply(s, steps[0]), steps[1..]))
  }

  lemma {:induction false} NoRaceNoOrphan(s: State, steps: seq<Step>)
    requires Inv(s) && !HasOrphan(s) && Run(s, steps).Some? && !HasRace(s, steps)
    ensures !HasOrphan(Run(s, steps).value) && Inv(Run(s, steps).value)
    decreases |steps|
  {
    if steps != [] {
      InvStep(s, steps[0]);
      OrphanStep(s, steps[0]);
      NoRaceNoOrphan(Apply(s, steps[0]), steps[1..]);
    }
  }

  // Safety over every schedule: two owners of one path imply that some Drop
  // removed the entry of a file another call had already opened.
  lemma TwoOwnersNeedRace(steps: seq<Step>)
    requires Run(Init, steps).Some? && TwoOwners(Run(Init, steps).value)
    ensures HasRace(Init, steps)
  {
    if !HasRace(Init, steps) {
      NoRaceNoOrphan(Init, steps);
      NoOrphanOneOwner(Run(Init, steps).value);
    }
  }

  // ---------------------------------------------------------------- the converse

  // Every call opened on the way writes one of these records.
  predicate OpensOnly(steps: seq<Step>, records: set<seq<string>>) {
    forall i :: 0 <= i < |steps| && steps[i].Open? ==> steps[i].record in records
  }

  predicate NoUnlink(steps: seq<Step>) { forall i :: 0 <= i < |steps| ==> !steps[i].Unlink? }

  lemma {:induction false} NoUnlinkNoRace(s: State, steps: seq<Step>)
    requires Run(s, steps).Some? && NoUnlink(steps)
    ensures !HasRace(s, steps)
    decreases |steps|
  {
    if steps != [] {
      NoUnlinkNoRace(Apply(s, steps[0]), steps[1..]);
    }
  }

  // Only attempt `a` and its own file have changed.
  ghost predicate OnlyMoved(s: State, s': State, a: nat)
    requires a < |s.attempts|
  {
    && s'.entry == s.entry && |s'.attempts| == |s.attempts| && |s'.files| == |s.files|
    && s'.attempts[a].inode == s.attempts[a].inode
    && (forall b :: 0 <= b < |s.attempts| && b != a ==> s'.attempts[b] == s.attempts[b])
    && (forall i :: 0 <= i < |s.files| && i != s.attempts[a].inode ==> s'.files[i] == s.files[i])
  }

  // Steps that remain before a call that can get the lock returns Ok.
  function Distance(a: Attempt): nat {
    match a.phase
    case Opened => |a.record| + 4
    case Locked => |a.record| + 3
    case Writing(done) => if done <= |a.record| then |a.record| - done + 1 else 0
    case _ => 0
  }

  // A call that owns its file, or finds it free, can return Ok by its own steps alone.
  lemma {:induction false} CanReturn(s: State, a: nat) returns (steps: seq<Step>, s': State)
    requires Inv(s) && a < |s.attempts| && s.attempts[a].Live()
    requires s.attempts[a].phase.Opened? ==> s.files[s.attempts[a].inode].holder.None?
    ensures Run(s, steps) == Some(s') && NoUnlink(steps) && OpensOnly(steps, {}) && Inv(s')
    ensures OnlyMoved(s, s', a) && s'.attempts[a] == s.attempts[a].(phase := Held)
    decreases Distance(s.attempts[a])
  {
    assert RecordInPlace(s, a);
    var x := s.attempts[a];
    if x.phase.Held? {
      return [], s;
    }
    var step :=
      if x.phase.Opened? then TryLock(a)
      else if x.phase.Locked? then Truncate(a)
      else if x.phase.done < |x.record| then WriteLine(a)
      else Return(a);
    InvStep(s, step);
    var rest;
    rest, s' := CanReturn(Apply(s, step), a);
    steps := [step] + rest;
    assert steps[1..] == rest;
  }

  // The exact condition: from a reachable state, two processes can come to own
  // the path without any further removal, whatever newcomers write, if and only
  // if some live handle is already an orphan. With OrphanStep this makes the
  // racing unlink the one step that loses mutual exclusion.
  lemma OrphanIsExactlyTheDanger(s: State, record: seq<string>)
    requires Inv(s)
    ensures HasOrphan(s) <==>
      exists steps :: NoUnlink(steps) && OpensOnly(steps, {record}) && Run(s, steps).Some? && TwoOwners(Run(s, steps).value)
  {
    if HasOrphan(s) {
      var steps := TwoOwnersFrom(s, record);
    }
    if !HasOrphan(s) {
      forall steps | NoUnlink(steps) && Run(s, steps).Some? ensures !TwoOwners(Run(s, steps).value) {
        NoUnlinkNoRace(s, steps);
        NoRaceNoOrphan(s, steps);
        NoOrphanOneOwner(Run(s, steps).value);
      }
    }
  }

  // A file that only a dropping call keeps locked becomes free when that call
  // closes its handle, which no removal can prevent.
  lemma FreeOfDroppers(s: State, inode: nat) returns (steps: seq<Step>, s': State)
    requires Inv(s) && inode < |s.files|
    ensures Run(s, steps) == Some(s') && NoUnlink(steps) && OpensOnly(steps, {}) && Inv(s')
    ensures s'.entry == s.entry && |s'.files| == |s.files| && |s'.attempts| == |s.attempts|
    ensures forall a :: 0 <= a < |s.attempts| && s.attempts[a].Live() ==> s'.attempts[a] == s.attempts[a]
    ensures s'.files[inode].holder.Some? ==> s'.attempts[s'.files[inode].holder.value].Live()
  {
    steps, s' := [], s;
    if s.files[inode].holder.Some? && !s.attempts[s.files[inode].holder.value].Live() {
      var step := Abandon(s.files[inode].holder.value);
      InvStep(s, step);
      steps, s' := [step], Apply(s, step);
    }
  }

  // Some call, among those that have the file open, can return Ok.
  lemma OwnerOf(s: State, a: nat) returns (steps: seq<Step>, s': State, owner: nat)
    requires Inv(s) && a < |s.attempts| && s.attempts[a].Live()
    ensures Run(s, steps) == Some(s') && NoUnlink(steps) && OpensOnly(steps, {}) && Inv(s')
    ensures s'.entry == s.entry && |s'.attempts| == |s.attempts|
    ensures owner < |s'.attempts| && s'.attempts[owner].phase.Held? && s'.attempts[owner].inode == s.attempts[a].inode
    ensures forall b :: 0 <= b < |s.attempts| && s.attempts[b].phase.Held? ==> s'.attempts[b] == s.attempts[b]
  {
    var inode := s.attempts[a].inode;
    var steps1, s1 := FreeOfDroppers(s, inode);
    owner := if s1.files[inode].holder.Some? then s1.files[inode].holder.value else a;
    var steps2;
    steps2, s' := CanReturn(s1, owner);
    RunConcat(s, steps1, steps2);
    OpensConcat(steps1, steps2, {});
    steps := steps1 + steps2;
  }

  // The lost file's owner, or the orphan itself, can finish acquiring it.
  lemma FirstOwner(s: State) returns (steps: seq<Step>, s': State, first: nat)
    requires Inv(s) && HasOrphan(s)
    ensures Run(s, steps) == Some(s') && NoUnlink(steps) && OpensOnly(steps, {}) && Inv(s')
    ensures first < |s'.attempts| && s'.attempts[first].phase.Held? && s'.entry != Some(s'.attempts[first].inode)
  {
    var a: nat :| Orphan(s, a);
    steps, s', first := OwnerOf(s, a);
  }

  // A newcomer opens whatever the path names now, and it or that file's owner
  // can finish acquiring it.
  lemma SecondOwner(s: State, first: nat, record: seq<string>) returns (steps: seq<Step>)
    requires Inv(s) && first < |s.attempts| && s.attempts[first].phase.Held? && s.entry != Some(s.attempts[first].inode)
    ensures NoUnlink(steps) && OpensOnly(steps, {record}) && Run(s, steps).Some? && TwoOwners(Run(s, steps).value)
  {
    var open := Open(record);
    InvStep(s, open);
    var after := Apply(s, open);
    var rest, end, second := OwnerOf(after, |s.attempts|);
    steps := [open] + rest;
    RunCons(s, open, rest);
    assert end.attempts[first] == s.attempts[first] && end.attempts[second].inode == after.entry.value;
    assert first < second || second < first;
  }

  lemma OpensConcat(first: seq<Step>, second: seq<Step>, records: set<seq<string>>)
    requires NoUnlink(first) && NoUnlink(second)
    requires OpensOnly(first, {}) && OpensOnly(second, records)
    ensures NoUnlink(first + second) && OpensOnly(first + second, records)
  {
  }

  lemma TwoOwnersFrom(s: State, record: seq<string>) returns (steps: seq<Step>)
    requires Inv(s) && HasOrphan(s)
    ensures NoUnlink(steps) && OpensOnly(steps, {record}) && Run(s, steps).Some? && TwoOwners(Run(s, steps).value)
  {
    var steps1, s1, first := FirstOwner(s);
    var steps2 := SecondOwner(s1, first, record);
    RunConcat(s, steps1, steps2);
    OpensConcat(steps1, steps2, {record});
    steps := steps1 + steps2;
  }

  lemma RunCons(s: State, step: Step, rest: seq<Step>)
    requires Enabled(s, step)
    ensures Run(s, [step] + rest) == Run(Apply(s, step), rest)
  {
    assert ([step] + rest)[1..] == rest;
  }

  lemma RunSnoc(s: State, steps: seq<Step>, s': State, last: Step)
    requires Run(s, steps) == Some(s') && Enabled(s', last)
    ensures Run(s, steps + [last]) == Some(Apply(s', last))
  {
    RunConcat(s, steps, [last]);
  }

  // One process holds the path, a second opens it, the first unlocks.
  lemma HandoverRun(record: seq<string>, next: seq<string>) returns (steps: seq<Step>, s: State)
    ensures Run(Init, steps) == Some(s) && Inv(s) && OpensOnly(steps, {record, next})
    ensures |s.attempts| == 2 && s.entry == Some(0)
    ensures s.attempts[0] == Attempt(0, record, Dropping(false)) && s.attempts[1] == Attempt(0, next, Opened)
  {
    var opened1 := Apply(Init, Open(record));
    InvStep(Init, Open(record));
    var acquiring, held := CanReturn(opened1, 0);
    RunCons(Init, Open(record), acquiring);
    var acquired := [Open(record)] + acquiring;
    var shared := Apply(held, Open(next));
    InvStep(held, Open(next));
    RunSnoc(Init, acquired, held, Open(next));
    s := Apply(shared, Unlock(0, true));
    InvStep(shared, Unlock(0, true));
    RunSnoc(Init, acquired + [Open(next)], shared, Unlock(0, true));
    steps := (acquired + [Open(next)]) + [Unlock(0, true)];
  }

  // Mutual exclusion does fail, whatever the calls write: B opens the file
  // while A holds it, A unlocks, A removes the path, B locks the removed file,
  // C creates and locks a new one.
  lemma MutualExclusionCanFail(a: seq<string>, b: seq<string>, c: seq<string>) returns (steps: seq<Step>)
    ensures Run(Init, steps).Some? && TwoOwners(Run(Init, steps).value) && OpensOnly(steps, {a, b, c})
  {
    var before, s := HandoverRun(a, b);
    var unlink := Unlink(0, true);
    InvStep(s, unlink);
    assert Orphan(Apply(s, unlink), 1);
    var rest := TwoOwnersFrom(Apply(s, unlink), c);
    RunSnoc(Init, before, s, unlink);
    RunConcat(Init, before + [unlink], rest);
    steps := (before + [unlink]) + rest;
  }

  // ---------------------------------------------------------------- the code

  predicate IsStepOf(step: Step, a: nat) { !step.Open? && step.id == a }

  lemma OthersKeep(s: State, step: Step, a: nat)
    requires Enabled(s, step) && !IsStepOf(step, a) && a < |s.attempts|
    ensures a < |Apply(s, step).attempts| && Apply(s, step).attempts[a] == s.attempts[a]
  {
  }

  // What the system answers one call.
  datatype Answer =
    | LockTried(id: nat, holder: Option<nat>)
    | Emptied(id: nat, works: bool)
    | LineWritten(id: nat, works: bool)
    | UnlockTried(id: nat, works: bool)
    | RemovalTried(id: nat, works: bool)

  // The file was held by another, or could not be emptied or written.
  predicate Refuses(answer: Answer, id: nat) {
    && answer.id == id
    && match answer
       case LockTried(_, holder) => holder.Some?
       case Emptied(_, works) => !works
       case LineWritten(_, works) => !works
       case _ => false
  }

  ghost predicate RefusedSince(n: nat, answers: seq<Answer>, id: nat) {
    exists k :: n <= k < |answers| && Refuses(answers[k], id)
  }

  lemma RefusedNow(n: nat, answers: seq<Answer>, last: Answer, id: nat)
    requires n <= |answers|
    ensures RefusedSince(n, answers + [last], id) <==> RefusedSince(n, answers, id) || Refuses(last, id)
  {
    var longer := answers + [last];
    if RefusedSince(n, answers, id) {
      var k :| n <= k < |answers| && Refuses(answers[k], id);
      assert longer[k] == answers[k];
    }
    if Refuses(last, id) { assert longer[|answers|] == last; }
  }

  lemma RefusedLater(n: nat, m: nat, earlier: seq<Answer>, later: seq<Answer>, id: nat)
    requires n <= m == |earlier| && earlier <= later
    ensures RefusedSince(n, later, id) <==> RefusedSince(n, earlier, id) || RefusedSince(m, later, id)
  {
    if RefusedSince(n, earlier, id) {
      var k :| n <= k < |earlier| && Refuses(earlier[k], id);
      assert later[k] == earlier[k];
    }
    if RefusedSince(n, later, id) && !RefusedSince(m, later, id) {
      var k :| n <= k < |later| && Refuses(later[k], id);
      assert later[k] == earlier[k];
    }
  }

  // The lock directory as one process uses it, while all the others take any
  // steps of their own between its system calls.
  class LockDirectory {
    var state: State
    ghost var answers: seq<Answer>  // what the system answered to this process

    ghost predicate Valid()
      reads this
    {
      Inv(state)
    }

    constructor ()
      ensures Valid() && state == Init && answers == []
    {
      state := Init;
      answers := [];
    }

    method Do(step: Step)
      requires Valid() && Enabled(state, step)
      modifies `state
      ensures Valid() && state == Apply(old(state), step)
    {
      InvStep(state, step);
      state := Apply(state, step);
    }

    method Interfere(me: nat)
      requires Valid() && me < |state.attempts|
      modifies `state
      ensures Valid() && me < |state.attempts| && state.attempts[me] == old(state).attempts[me]
    {
      var others: seq<Step> := *;
      for i := 0 to |others|
        invariant Valid() && me < |state.attempts| && state.attempts[me] == old(state).attempts[me]
      {
        if Enabled(state, others[i]) && !IsStepOf(others[i], me) {
          OthersKeep(state, others[i], me);
          Do(others[i]);
        }
      }
    }

    // The system calls of one process: each takes its step or, when the system
    // refuses, leaves everything as it is.
    method TryLockFile(me: nat) returns (ok: bool)
      requires Valid() && Enabled(state, TryLock(me))
      modifies this
      ensures Valid() && state == Apply(old(state), TryLock(me))
      ensures answers == old(answers) + [LockTried(me, old(state.files[state.attempts[me].inode].holder))]
      ensures ok <==> old(state.files[state.attempts[me].inode].holder).None?
    {
      var holder := state.files[state.attempts[me].inode].holder;
      Do(TryLock(me));
      answers := answers + [LockTried(me, holder)];
      ok := holder.None?;
    }

    method EmptyFile(me: nat) returns (ok: bool)
      requires Valid() && Enabled(state, Truncate(me))
      modifies this
      ensures Valid() && state == if ok then Apply(old(state), Truncate(me)) else old(state)
      ensures answers == old(answers) + [Emptied(me, ok)]
    {
      ok := *;
      if ok {
        Do(Truncate(me));
      }
      answers := answers + [Emptied(me, ok)];
    }

    method WriteNextLine(me: nat) returns (ok: bool)
      requires Valid() && Enabled(state, WriteLine(me))
      modifies this
      ensures Valid() && state == if ok then Apply(old(state), WriteLine(me)) else old(state)
      ensures answers == old(answers) + [LineWritten(me, ok)]
    {
      ok := *;
      if ok {
        Do(WriteLine(me));
      }
      answers := answers + [LineWritten(me, ok)];
    }

    method UnlockFile(me: nat)
      requires Valid() && Enabled(state, Unlock(me, true))
      modifies this
      ensures Valid() && exists works ::
        state == Apply(old(state), Unlock(me, works)) && answers == old(answers) + [UnlockTried(me, works)]
    {
      var works: bool := *;
      Do(Unlock(me, works));
      answers := answers + [UnlockTried(me, works)];
    }

    // The call's own attempt: either it owns its file, which holds its record,
    // or it has failed and left no handle open. It fails exactly when the system
    // refused: the file was held, or could not be emptied, or a line could not
    // be written.
    method Acquire(record: seq<string>) returns (me: nat, ok: bool)
      requires Valid()
      modifies this
      ensures Valid() && me < |state.attempts| && state.attempts[me].record == record
      ensures old(answers) <= answers
      ensures ok <==> !RefusedSince(|old(answers)|, answers, me)
      ensures ok ==>
        && state.attempts[me].phase == Held
        && state.files[state.attempts[me].inode] == File(Some(me), record)
      ensures !ok ==> state.attempts[me].phase == Ended
    {
      me, ok := LockFile(record);
      if !ok {
        return;
      }
      ghost var locked := answers;
      ok := WriteRecord(me);
      RefusedLater(|old(answers)|, |locked|, locked, answers, me);
      if !ok {
        Do(Abandon(me));
        return;
      }
      Interfere(me);
      Do(Return(me));
      assert RecordInPlace(state, me);
    }

    // Opens the path, tries the lock and empties the file.
    method LockFile(record: seq<string>) returns (me: nat, ok: bool)
      requires Valid()
      modifies this
      ensures Valid() && me < |state.attempts| && state.attempts[me].record == record
      ensures old(answers) <= answers
      ensures ok <==> !RefusedSince(|old(answers)|, answers, me)
      ensures state.attempts[me].phase == if ok then Writing(0) else Ended
    {
      me, ok := OpenAndTry(record);
      if ok {
        ghost var tried := answers;
        Interfere(me);
        ok := EmptyFile(me);
        RefusedNow(|old(answers)|, tried, Emptied(me, ok), me);
        if !ok {
          Do(Abandon(me));
        }
      }
    }

    method OpenAndTry(record: seq<string>) returns (me: nat, ok: bool)
      requires Valid()
      modifies this
      ensures Valid() && me < |state.attempts| && state.attempts[me].record == record
      ensures old(answers) <= answers
      ensures ok <==> !RefusedSince(|old(answers)|, answers, me)
      ensures state.attempts[me].phase == if ok then Locked else Ended
    {
      Do(Open(record));
      me := |state.attempts| - 1;
      Interfere(me);
      ghost var holder := state.files[state.attempts[me].inode].holder;
      ok := TryLockFile(me);
      RefusedNow(|old(answers)|, old(answers), LockTried(me, holder), me);
    }

    // Writes line by line; the system may fail any write.
    method WriteRecord(me: nat) returns (ok: bool)
      requires Valid() && me < |state.attempts| && state.attempts[me].phase == Writing(0)
      modifies this
      ensures Valid() && me < |state.attempts| && old(answers) <= answers
      ensures state.attempts[me].phase.Writing? && state.attempts[me].record == old(state.attempts[me]).record
      ensures ok <==> !RefusedSince(|old(answers)|, answers, me)
      ensures ok ==> state.attempts[me].phase.done == |state.attempts[me].record|
    {
      var count := |state.attempts[me].record|;
      for done := 0 to count
        invariant Valid() && me < |state.attempts| && old(answers) <= answers
        invariant state.attempts[me] == old(state.attempts[me]).(phase := Writing(done))
        invariant !RefusedSince(|old(answers)|, answers, me)
      {
        Interfere(me);
        ghost var before := answers;
        ok := WriteNextLine(me);
        RefusedNow(|old(answers)|, before, LineWritten(me, ok), me);
        if !ok {
          return;
        }
      }
      ok := true;
    }

    // Removes whatever the path names by now, unless the system refuses.
    method RemovePath(owner: nat) returns (removed: bool)
      requires Valid() && owner < |state.attempts| && state.attempts[owner].phase.Dropping?
      modifies this
      ensures Valid() && owner < |state.attempts| && state.attempts[owner].phase.Removed?
      ensures state.entry == if removed then None else old(state).entry
      ensures answers == old(answers) + [RemovalTried(owner, removed)]
    {
      removed := *;
      Do(Unlink(owner, removed));
      answers := answers + [RemovalTried(owner, removed)];
    }

    // Unlocks the file and removes the path, ignoring the failure of either;
    // then the handle closes. Afterwards this call keeps no file locked.
    method Drop(owner: nat)
      requires Valid() && owner < |state.attempts| && state.attempts[owner].phase == Held
      modifies this
      ensures Valid() && owner < |state.attempts| && state.attempts[owner].phase == Ended
      ensures forall i :: 0 <= i < |state.files| ==> state.files[i].holder != Some(owner)
      ensures exists unlocked, removed ::
        answers == old(answers) + [UnlockTried(owner, unlocked), RemovalTried(owner, removed)]
    {
      UnlockFile(owner);
      Interfere(owner);
      var _ := RemovePath(owner);
      Interfere(owner);
      Do(Abandon(owner));
    }
  }
}
