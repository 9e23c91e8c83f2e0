// Parallel downloads into one directory. Every worker looks for a free file
// name by itself, by creating it exclusively or by checking and then renaming,
// while all the others do the same.
module Downloads {
  import opened Wrappers
  import opened Sequences
  import opened Text

  const MAX_COPIES: nat := 1000

  // ---------------------------------------------------------------- names

  predicate IsAlnum(c: char) { 'a' <= c <= 'z' || 'A' <= c <= 'Z' || '0' <= c <= '9' }

  // The non-empty parts between the characters that are not letters or digits.
  function Parts(value: string): (parts: seq<string>)
    ensures forall i :: 0 <= i < |parts| ==> parts[i] != [] && forall k :: 0 <= k < |parts[i]| ==> IsAlnum(parts[i][k])
    decreases |value|
  {
    if value == [] then []
    else
      var n := RunLength(value);
      if n == 0 then Parts(value[1..]) else [value[..n]] + Parts(value[n..])
  }

  // Length of the run of letters and digits at the front.
  function RunLength(value: string): (n: nat)
    ensures n <= |value| && forall k :: 0 <= k < n ==> IsAlnum(value[k])
  {
    if value == [] || !IsAlnum(value[0]) then 0 else 1 + RunLength(value[1..])
  }

  function Join(parts: seq<string>): string {
    if parts == [] then ""
    else if |parts| == 1 then parts[0]
    else parts[0] + "-" + Join(parts[1..])
  }

  function SafeFilename(title: string): string {
    var name := Take(Join(Take(Parts(title), 8)), 80);
    if name == "" then "result" else name
  }

  function Suffix(copy: nat): string { if copy == 0 then "" else "-" + Decimal(copy) }

  // The name a worker tries for a copy number.
  function Candidate(index: nat, title: string, extension: string, copy: nat): string {
    Padded(index + 1) + ("-" + SafeFilename(title) + Suffix(copy) + "." + extension)
  }

  lemma {:induction false} JoinIsClean(parts: seq<string>)
    requires forall i :: 0 <= i < |parts| ==> parts[i] != [] && forall k :: 0 <= k < |parts[i]| ==> IsAlnum(parts[i][k])
    ensures forall k :: 0 <= k < |Join(parts)| ==> IsAlnum(Join(parts)[k]) || Join(parts)[k] == '-'
    ensures forall k :: 0 <= k < |Join(parts)| - 1 ==> IsAlnum(Join(parts)[k]) || IsAlnum(Join(parts)[k + 1])
    ensures parts != [] ==> Join(parts) != [] && IsAlnum(Join(parts)[0]) && IsAlnum(Join(parts)[|Join(parts)| - 1])
  {
    if |parts| > 1 {
      JoinIsClean(parts[1..]);
      JoinStep(parts[0], Join(parts[1..]));
    }
  }

  lemma JoinStep(part: string, rest: string)
    requires part != [] && forall k :: 0 <= k < |part| ==> IsAlnum(part[k])
    requires rest != [] && IsAlnum(rest[0])
    requires forall k :: 0 <= k < |rest| ==> IsAlnum(rest[k]) || rest[k] == '-'
    requires forall k :: 0 <= k < |rest| - 1 ==> IsAlnum(rest[k]) || IsAlnum(rest[k + 1])
    ensures var s := part + "-" + rest;
            && (forall k :: 0 <= k < |s| ==> IsAlnum(s[k]) || s[k] == '-')
            && (forall k :: 0 <= k < |s| - 1 ==> IsAlnum(s[k]) || IsAlnum(s[k + 1]))
  {
    var s := part + "-" + rest;
    var n := |part| + 1;
    assert forall k :: n <= k < |s| ==> s[k] == rest[k - n];
  }

  // Whatever the title, the name is short and made of letters and digits with
  // single dashes between, or one at the end when it was cut, so that it cannot
  // leave the directory.
  lemma SafeFilenameIsSafe(title: string)
    ensures 1 <= |SafeFilename(title)| <= 80
    ensures forall k :: 0 <= k < |SafeFilename(title)| ==> IsAlnum(SafeFilename(title)[k]) || SafeFilename(title)[k] == '-'
    ensures forall k :: 0 <= k < |SafeFilename(title)| - 1 ==>
      IsAlnum(SafeFilename(title)[k]) || IsAlnum(SafeFilename(title)[k + 1])
    ensures IsAlnum(SafeFilename(title)[0])
    ensures IsAlnum(SafeFilename(title)[|SafeFilename(title)| - 1]) || |SafeFilename(title)| == 80
  {
    JoinIsClean(Take(Parts(title), 8));
  }

  // Letters of either case, and digits.
  lemma AlnumIsLetterOrDigit(c: char)
    ensures IsAlnum(c) <==> IsDigit(c) || 'a' <= LowerChar(c) <= 'z'
  {
  }

  predicate AllAlnum(s: string) { forall k :: 0 <= k < |s| ==> IsAlnum(s[k]) }

  predicate NoAlnum(s: string) { forall k :: 0 <= k < |s| ==> !IsAlnum(s[k]) }

  lemma {:induction false} RunIsWord(word: string, rest: string)
    requires AllAlnum(word) && (rest == "" || !IsAlnum(rest[0]))
    ensures RunLength(word + rest) == |word|
  {
    if word == "" {
      assert word + rest == rest;
    } else {
      RunIsWord(word[1..], rest);
      assert (word + rest)[1..] == word[1..] + rest;
    }
  }

  // The parts of a title are its words: the next one comes after anything that
  // is no letter or digit, and ends at the end or before such a character.
  lemma {:induction false} PartsAreWords(gap: string, word: string, rest: string)
    requires NoAlnum(gap) && word != "" && AllAlnum(word) && (rest == "" || !IsAlnum(rest[0]))
    ensures Parts(gap + (word + rest)) == [word] + Parts(rest)
    decreases |gap|
  {
    if gap == "" {
      RunIsWord(word, rest);
      var s := word + rest;
      assert gap + s == s && s[..|word|] == word && s[|word|..] == rest;
    } else {
      PartsAreWords(gap[1..], word, rest);
      assert (gap + (word + rest))[1..] == gap[1..] + (word + rest);
    }
  }

  lemma {:induction false} NoWordsNoParts(gap: string)
    requires NoAlnum(gap)
    ensures Parts(gap) == []
  {
    if gap != "" {
      NoWordsNoParts(gap[1..]);
    }
  }

  // Joined words can be told apart again.
  lemma {:induction false} PartsOfJoin(words: seq<string>)
    requires forall i :: 0 <= i < |words| ==> words[i] != [] && AllAlnum(words[i])
    ensures Parts(Join(words)) == words
    decreases |words|
  {
    if words != [] {
      var word, rest := words[0], words[1..];
      PartsOfJoin(rest);
      var tail := if rest == [] then "" else "-" + Join(rest);
      assert Join(words) == "" + (word + tail);
      PartsAreWords("", word, tail);
      if rest != [] {
        JoinIsClean(rest);
        DashBefore(Join(rest));
      }
    }
  }

  lemma DashBefore(s: string)
    ensures Parts("-" + s) == Parts(s)
  {
    assert ("-" + s)[1..] == s;
  }

  // The name has the title's words, the first eight of them, unless it is cut
  // at 80 characters; a title without any gives "result".
  lemma SafeFilenameHasTheWords(title: string)
    ensures Parts(title) == [] ==> SafeFilename(title) == "result"
    ensures var words := Take(Parts(title), 8);
      words != [] ==> SafeFilename(title) <= Join(words) && |SafeFilename(title)| == if |Join(words)| < 80 then |Join(words)| else 80
    ensures var words := Take(Parts(title), 8);
      words != [] && |Join(words)| <= 80 ==> Parts(SafeFilename(title)) == words
  {
    JoinIsClean(Take(Parts(title), 8));
    PartsOfJoin(Take(Parts(title), 8));
  }

  // The first name tried has no suffix, the others have their copy number.
  lemma CandidateReads(i: nat, t: string, e: string, c: nat)
    ensures var name := Padded(i + 1) + ("-" + SafeFilename(t));
      && Candidate(i, t, e, c) == name + Suffix(c) + ("." + e)
      && Candidate(i, t, e, 0) == name + ("." + e)
      && (c > 0 ==> Candidate(i, t, e, c) == name + ("-" + Decimal(c)) + ("." + e))
  {
  }

  lemma SuffixesDiffer(c: nat, d: nat)
    requires c < d
    ensures Suffix(c) != Suffix(d)
  {
    DigitsOfDecimal(c);
    DigitsOfDecimal(d);
    assert Suffix(d)[1..] == Decimal(d);
    assert c != 0 ==> Suffix(c)[1..] == Decimal(c);
  }

  // Names of one worker for different copy numbers differ.
  lemma CopiesDiffer(i: nat, t: string, e: string, c: nat, d: nat)
    requires c < d
    ensures Candidate(i, t, e, c) != Candidate(i, t, e, d)
  {
    SuffixesDiffer(c, d);
    CandidateReads(i, t, e, c);
    CandidateReads(i, t, e, d);
    if Candidate(i, t, e, c) == Candidate(i, t, e, d) {
      SameMiddle(Padded(i + 1) + ("-" + SafeFilename(t)), Suffix(c), Suffix(d), "." + e);
    }
  }

  lemma SameMiddle(front: string, x: string, y: string, back: string)
    requires front + x + back == front + y + back
    ensures x == y
  {
    var s := front + x + back;
    assert |x| == |y|;
    assert s[|front|..|front| + |x|] == x;
    assert (front + y + back)[|front|..|front| + |y|] == y;
  }

  lemma PaddedInjective(m: nat, n: nat)
    requires Padded(m) == Padded(n)
    ensures m == n
  {
    PaddedValue(m);
    PaddedValue(n);
  }

  lemma PaddedValue(n: nat)
    ensures DigitsValue(Padded(n)) == n
  {
    DigitsOfDecimal(n);
    if n < 10 {
      assert Padded(n)[..1] == "0";
      assert DigitsValue("0") == DigitsValue("0"[..0]) * 10 + DigitValue('0');
    }
  }

  // Candidates of different workers never meet: the index ends at the first dash.
  lemma CandidatesDiffer(i: nat, j: nat, t: string, u: string, e: string, f: string, c: nat, d: nat)
    requires i != j
    ensures Candidate(i, t, e, c) != Candidate(j, u, f, d)
  {
    DashAfterIndex(i, t, e, c);
    DashAfterIndex(j, u, f, d);
    if Candidate(i, t, e, c) == Candidate(j, u, f, d) {
      PaddedInjective(i + 1, j + 1);
    }
  }

  lemma DashAfterIndex(i: nat, t: string, e: string, c: nat)
    ensures Find(Candidate(i, t, e, c), '-') == |Padded(i + 1)|
    ensures Candidate(i, t, e, c)[..|Padded(i + 1)|] == Padded(i + 1)
  {
    var p := Padded(i + 1);
    var s := Candidate(i, t, e, c);
    assert s[|p|] == '-';
    assert forall k :: 0 <= k < |p| ==> s[k] == p[k] && IsDigit(p[k]);
    FindAt(s, '-', |p|);
  }

  // ---------------------------------------------------------------- workers

  // WriteNew is an image download, MoveIn a media file fetched elsewhere.
  datatype Method = WriteNew | MoveIn

  // A job whose fetch failed, or whose size was refused, never looks for a name.
  datatype Job = Job(title: string, extension: string, bytes: string, how: Method, fetched: bool)

  datatype Phase =
    | Trying(copy: nat)
    | Created(copy: nat)    // WriteNew: created empty, not yet written
    | FoundFree(copy: nat, taken: bool)  // MoveIn: not seen to exist, not yet renamed; `taken` when the probe erred
    | Saved(copy: nat, over: bool)       // `over` when that replaced a file
    | Skipped
    | NoName                // every copy number was taken
    | Broken(left: Option<nat>)  // an I/O error, perhaps after creating a file

  datatype State = State(fs: map<string, string>, phases: seq<Phase>)

  // How the operating system fails a turn, if it does; Refuses is the answer to
  // a rename that a file is already there, and an error of any other turn.
  datatype Fault = NoFault | IoError | Refuses

  // One turn of one worker.
  datatype Turn = Turn(worker: nat, fault: Fault)

  predicate Finished(p: Phase) { p.Saved? || p.Skipped? || p.NoName? || p.Broken? }

  function NameOf(jobs: seq<Job>, w: nat, copy: nat): string
    requires w < |jobs|
  {
    Candidate(w, jobs[w].title, jobs[w].extension, copy)
  }

  function TakeTurn(jobs: seq<Job>, s: State, turn: Turn): State
    requires |s.phases| == |jobs|
  {
    var w := turn.worker;
    if w >= |jobs| || Finished(s.phases[w]) then s
    else
      match s.phases[w]
      case Trying(copy) =>
        if copy >= MAX_COPIES then State(s.fs, s.phases[w := NoName]) else Try(jobs, s, w, copy, turn.fault)
      case Created(copy) =>
        if turn.fault != NoFault then State(s.fs, s.phases[w := Broken(Some(copy))])
        else State(s.fs[NameOf(jobs, w, copy) := jobs[w].bytes], s.phases[w := Saved(copy, false)])
      case FoundFree(copy, taken) => Move(jobs, s, w, copy, taken, turn.fault)
      case _ => s
  }

  // The rename, which replaces a file that is there unless it is refused.
  function Move(jobs: seq<Job>, s: State, w: nat, copy: nat, taken: bool, fault: Fault): State
    requires w < |jobs| == |s.phases|
  {
    if fault == IoError then State(s.fs, s.phases[w := Broken(None)])
    else if fault == Refuses && taken then State(s.fs, s.phases[w := Trying(copy + 1)])
    else State(s.fs[NameOf(jobs, w, copy) := jobs[w].bytes], s.phases[w := Saved(copy, taken)])
  }

  // One candidate name. Creating a file fails on an error; the probe before a
  // rename takes an error for "does not exist".
  function Try(jobs: seq<Job>, s: State, w: nat, copy: nat, fault: Fault): State
    requires w < |jobs| == |s.phases|
  {
    var name := NameOf(jobs, w, copy);
    if jobs[w].how == WriteNew then
      if fault != NoFault then State(s.fs, s.phases[w := Broken(None)])
      else if name in s.fs then State(s.fs, s.phases[w := Trying(copy + 1)])
      else State(s.fs[name := ""], s.phases[w := Created(copy)])
    else if name in s.fs && fault == NoFault then State(s.fs, s.phases[w := Trying(copy + 1)])
    else State(s.fs, s.phases[w := FoundFree(copy, name in s.fs)])
  }

  function Start(jobs: seq<Job>, fs: map<string, string>): (s: State)
    ensures |s.phases| == |jobs|
  {
    State(fs, seq(|jobs|, i requires 0 <= i < |jobs| => if jobs[i].fetched then Trying(0) else Skipped))
  }

  function RunTurns(jobs: seq<Job>, s: State, turns: seq<Turn>): (r: State)
    requires |s.phases| == |jobs|
    ensures |r.phases| == |jobs|
    decreases |turns|
  {
    if turns == [] then s else RunTurns(jobs, TakeTurn(jobs, s, turns[0]), turns[1..])
  }

  // ---------------------------------------------------------------- the invariant

  // The file a worker has made so far, if any.
  function Made(p: Phase): Option<nat> {
    match p
    case Created(copy) => Some(copy)
    case Saved(copy, over) => if over then None else Some(copy)
    case Broken(left) => left
    case _ => None
  }

  // The first copy number whose name was free before the batch began.
  ghost predicate FirstFree(jobs: seq<Job>, fs: map<string, string>, w: nat, copy: nat)
    requires w < |jobs|
  {
    copy < MAX_COPIES && NameOf(jobs, w, copy) !in fs && AllTaken(jobs, fs, w, copy)
  }

  ghost predicate AllTaken(jobs: seq<Job>, fs: map<string, string>, w: nat, copy: nat)
    requires w < |jobs|
  {
    forall k: nat :: k < copy ==> NameOf(jobs, w, k) in fs
  }

  // The name is the first that was free, or, chosen by mistake, one that was taken.
  ghost predicate Chosen(jobs: seq<Job>, fs: map<string, string>, w: nat, copy: nat, taken: bool)
    requires w < |jobs|
  {
    copy < MAX_COPIES && AllTaken(jobs, fs, w, copy) && (NameOf(jobs, w, copy) in fs <==> taken)
  }

  ghost predicate PhaseOk(jobs: seq<Job>, fs0: map<string, string>, s: State, w: nat)
    requires |s.phases| == |jobs| && w < |jobs|
  {
    match s.phases[w]
    case Trying(copy) => jobs[w].fetched && copy <= MAX_COPIES && AllTaken(jobs, fs0, w, copy)
    case Created(copy) => jobs[w].fetched && FirstFree(jobs, fs0, w, copy)
    case FoundFree(copy, taken) => jobs[w].fetched && Chosen(jobs, fs0, w, copy, taken)
    case Saved(copy, over) => jobs[w].fetched && Chosen(jobs, fs0, w, copy, over)
                              && NameOf(jobs, w, copy) in s.fs && s.fs[NameOf(jobs, w, copy)] == jobs[w].bytes
    case Skipped => !jobs[w].fetched
    case NoName => jobs[w].fetched && AllTaken(jobs, fs0, w, MAX_COPIES)
    case Broken(left) => left.Some? ==> FirstFree(jobs, fs0, w, left.value)
  }

  // A name present now was there before, or was made by the worker it belongs to.
  ghost predicate Accounted(jobs: seq<Job>, fs0: map<string, string>, s: State, name: string)
    requires |s.phases| == |jobs|
  {
    name in fs0 || exists w :: 0 <= w < |jobs| && Made(s.phases[w]).Some? && name == NameOf(jobs, w, Made(s.phases[w]).value)
  }

  // A worker has saved its file over the one with this name.
  ghost predicate Replaced(jobs: seq<Job>, s: State, name: string)
    requires |s.phases| == |jobs|
  {
    exists w :: 0 <= w < |jobs| && s.phases[w].Saved? && s.phases[w].over && name == NameOf(jobs, w, s.phases[w].copy)
  }

  ghost predicate Inv(jobs: seq<Job>, fs0: map<string, string>, s: State) {
    && |s.phases| == |jobs|
    && (forall name :: name in fs0 ==> name in s.fs && (s.fs[name] == fs0[name] || Replaced(jobs, s, name)))
    && (forall name :: name in s.fs ==> Accounted(jobs, fs0, s, name))
    && (forall w :: 0 <= w < |jobs| ==> PhaseOk(jobs, fs0, s, w))
  }

  // A worker that has made nothing finds its names taken exactly when they
  // were taken before the batch began.
  lemma OwnNames(jobs: seq<Job>, fs0: map<string, string>, s: State, w: nat, copy: nat)
    requires Inv(jobs, fs0, s) && w < |jobs| && Made(s.phases[w]).None?
    ensures NameOf(jobs, w, copy) in s.fs <==> NameOf(jobs, w, copy) in fs0
  {
    var name := NameOf(jobs, w, copy);
    if name in s.fs {
      assert Accounted(jobs, fs0, s, name);
      if name !in fs0 {
        var v :| 0 <= v < |jobs| && Made(s.phases[v]).Some? && name == NameOf(jobs, v, Made(s.phases[v]).value);
        CandidatesDiffer(w, v, jobs[w].title, jobs[v].title, jobs[w].extension, jobs[v].extension, copy,
                         Made(s.phases[v]).value);
      }
    }
  }

  lemma InvTurn(jobs: seq<Job>, fs0: map<string, string>, s: State, turn: Turn)
    requires Inv(jobs, fs0, s)
    ensures Inv(jobs, fs0, TakeTurn(jobs, s, turn))
  {
    var w := turn.worker;
    if w < |jobs| && !Finished(s.phases[w]) {
      match s.phases[w]
      case Trying(copy) => InvTrying(jobs, fs0, s, turn, copy);
      case Created(copy) => InvWriting(jobs, fs0, s, turn, copy);
      case FoundFree(copy, taken) => InvMoving(jobs, fs0, s, turn, copy, taken);
      case _ =>
    }
  }

  lemma InvTrying(jobs: seq<Job>, fs0: map<string, string>, s: State, turn: Turn, copy: nat)
    requires Inv(jobs, fs0, s) && turn.worker < |jobs| && s.phases[turn.worker] == Trying(copy)
    ensures Inv(jobs, fs0, TakeTurn(jobs, s, turn))
  {
    OwnNames(jobs, fs0, s, turn.worker, copy);
    TriedPhaseOk(jobs, fs0, s, turn, copy);
    TriedMoves(jobs, s, turn, copy);
    NewName(jobs, fs0, s, TakeTurn(jobs, s, turn), turn.worker, copy, "");
  }

  lemma TriedMoves(jobs: seq<Job>, s: State, turn: Turn, copy: nat)
    requires |s.phases| == |jobs| && turn.worker < |jobs| && s.phases[turn.worker] == Trying(copy)
    ensures var s', w := TakeTurn(jobs, s, turn), turn.worker;
      && |s'.phases| == |jobs| && s'.phases == s.phases[w := s'.phases[w]]
      && (s'.fs == s.fs || (NameOf(jobs, w, copy) !in s.fs && Made(s'.phases[w]) == Some(copy)
                            && s'.fs == s.fs[NameOf(jobs, w, copy) := ""]))
  {
    if copy < MAX_COPIES {
      assert TakeTurn(jobs, s, turn) == Try(jobs, s, turn.worker, copy, turn.fault);
      TryMoves(jobs, s, turn.worker, copy, turn.fault);
    }
  }

  lemma TryMoves(jobs: seq<Job>, s: State, w: nat, copy: nat, fault: Fault)
    requires |s.phases| == |jobs| && w < |jobs|
    ensures var s' := Try(jobs, s, w, copy, fault);
      && |s'.phases| == |jobs| && s'.phases == s.phases[w := s'.phases[w]]
      && (s'.fs == s.fs || (NameOf(jobs, w, copy) !in s.fs && Made(s'.phases[w]) == Some(copy)
                            && s'.fs == s.fs[NameOf(jobs, w, copy) := ""]))
  {
  }

  lemma TriedPhaseOk(jobs: seq<Job>, fs0: map<string, string>, s: State, turn: Turn, copy: nat)
    requires |s.phases| == |jobs| && turn.worker < |jobs| && s.phases[turn.worker] == Trying(copy)
    requires PhaseOk(jobs, fs0, s, turn.worker)
    requires NameOf(jobs, turn.worker, copy) in s.fs <==> NameOf(jobs, turn.worker, copy) in fs0
    ensures PhaseOk(jobs, fs0, TakeTurn(jobs, s, turn), turn.worker)
  {
  }

  lemma InvWriting(jobs: seq<Job>, fs0: map<string, string>, s: State, turn: Turn, copy: nat)
    requires Inv(jobs, fs0, s) && turn.worker < |jobs| && s.phases[turn.worker] == Created(copy)
    ensures Inv(jobs, fs0, TakeTurn(jobs, s, turn))
  {
    assert PhaseOk(jobs, fs0, s, turn.worker);
    NewName(jobs, fs0, s, TakeTurn(jobs, s, turn), turn.worker, copy, jobs[turn.worker].bytes);
  }

  lemma InvMoving(jobs: seq<Job>, fs0: map<string, string>, s: State, turn: Turn, copy: nat, taken: bool)
    requires Inv(jobs, fs0, s) && turn.worker < |jobs| && s.phases[turn.worker] == FoundFree(copy, taken)
    ensures Inv(jobs, fs0, TakeTurn(jobs, s, turn))
  {
    var w := turn.worker;
    var s' := Move(jobs, s, w, copy, taken, turn.fault);
    assert TakeTurn(jobs, s, turn) == s';
    assert PhaseOk(jobs, fs0, s, w);
    MovedPhaseOk(jobs, fs0, s, w, copy, taken, turn.fault);
    MoveMoves(jobs, fs0, s, w, copy, taken, turn.fault);
    NewName(jobs, fs0, s, s', w, copy, jobs[w].bytes);
  }

  lemma MoveMoves(jobs: seq<Job>, fs0: map<string, string>, s: State, w: nat, copy: nat, taken: bool, fault: Fault)
    requires |s.phases| == |jobs| && w < |jobs| && (NameOf(jobs, w, copy) in fs0 <==> taken)
    ensures var s' := Move(jobs, s, w, copy, taken, fault);
      && |s'.phases| == |jobs| && s'.phases == s.phases[w := s'.phases[w]]
      && (s'.fs == s.fs || s'.fs == s.fs[NameOf(jobs, w, copy) := jobs[w].bytes])
      && (s'.fs != s.fs ==>
            if NameOf(jobs, w, copy) in fs0 then s'.phases[w] == Saved(copy, true) else Made(s'.phases[w]) == Some(copy))
  {
  }

  lemma MovedPhaseOk(jobs: seq<Job>, fs0: map<string, string>, s: State, w: nat, copy: nat, taken: bool, fault: Fault)
    requires |s.phases| == |jobs| && w < |jobs| && s.phases[w] == FoundFree(copy, taken)
    requires PhaseOk(jobs, fs0, s, w)
    ensures PhaseOk(jobs, fs0, Move(jobs, s, w, copy, taken, fault), w)
  {
  }

  // Moving one worker on, with at most one file written under its own name,
  // new or replaced, keeps the rest.
  lemma NewName(jobs: seq<Job>, fs0: map<string, string>, s: State, s': State, w: nat, copy: nat, bytes: string)
    requires Inv(jobs, fs0, s) && w < |jobs|
    requires |s'.phases| == |jobs| && s'.phases == s.phases[w := s'.phases[w]] && !s.phases[w].Saved?
    requires Made(s.phases[w]).Some? ==> Made(s'.phases[w]) == Made(s.phases[w])
    requires s'.fs == s.fs || s'.fs == s.fs[NameOf(jobs, w, copy) := bytes]
    requires s'.fs != s.fs ==>
             if NameOf(jobs, w, copy) in fs0 then s'.phases[w] == Saved(copy, true) else Made(s'.phases[w]) == Some(copy)
    requires PhaseOk(jobs, fs0, s', w)
    ensures Inv(jobs, fs0, s')
  {
    forall name | name in s'.fs ensures Accounted(jobs, fs0, s', name) {
      StillAccounted(jobs, fs0, s, s', w, copy, name);
    }
    forall name | name in fs0 ensures name in s'.fs && (s'.fs[name] == fs0[name] || Replaced(jobs, s', name)) {
      StillReplaced(jobs, s, s', w, copy, name);
    }
    forall v | 0 <= v < |jobs| ensures PhaseOk(jobs, fs0, s', v) {
      if v != w {
        OtherStaysOk(jobs, fs0, s, s', w, copy, bytes, v);
      }
    }
  }

  lemma OtherStaysOk(jobs: seq<Job>, fs0: map<string, string>, s: State, s': State, w: nat, copy: nat, bytes: string, v: nat)
    requires |s.phases| == |s'.phases| == |jobs| && v < |jobs| && w < |jobs| && v != w && s'.phases[v] == s.phases[v]
    requires s'.fs == s.fs || s'.fs == s.fs[NameOf(jobs, w, copy) := bytes]
    requires PhaseOk(jobs, fs0, s, v)
    ensures PhaseOk(jobs, fs0, s', v)
  {
    if s.phases[v].Saved? {
      CandidatesDiffer(v, w, jobs[v].title, jobs[w].title, jobs[v].extension, jobs[w].extension, s.phases[v].copy, copy);
    }
  }

  lemma StillAccounted(jobs: seq<Job>, fs0: map<string, string>, s: State, s': State, w: nat, copy: nat, name: string)
    requires |s.phases| == |jobs| && w < |jobs| && |s'.phases| == |jobs| && s'.phases == s.phases[w := s'.phases[w]]
    requires Made(s.phases[w]).Some? ==> Made(s'.phases[w]) == Made(s.phases[w])
    requires name in s.fs ==> Accounted(jobs, fs0, s, name)
    requires name !in s.fs && name !in fs0 ==> name == NameOf(jobs, w, copy) && Made(s'.phases[w]) == Some(copy)
    ensures Accounted(jobs, fs0, s', name)
  {
    if name !in fs0 {
      if name in s.fs {
        var v :| 0 <= v < |jobs| && Made(s.phases[v]).Some? && name == NameOf(jobs, v, Made(s.phases[v]).value);
        assert Made(s'.phases[v]) == Made(s.phases[v]);
      } else {
        assert name == NameOf(jobs, w, Made(s'.phases[w]).value);
      }
    }
  }

  lemma StillReplaced(jobs: seq<Job>, s: State, s': State, w: nat, copy: nat, name: string)
    requires |s.phases| == |jobs| && w < |jobs| && |s'.phases| == |jobs| && s'.phases == s.phases[w := s'.phases[w]]
    requires !s.phases[w].Saved?
    ensures Replaced(jobs, s, name) ==> Replaced(jobs, s', name)
    ensures s'.phases[w] == Saved(copy, true) && name == NameOf(jobs, w, copy) ==> Replaced(jobs, s', name)
  {
    if Replaced(jobs, s, name) {
      var v :| 0 <= v < |jobs| && s.phases[v].Saved? && s.phases[v].over && name == NameOf(jobs, v, s.phases[v].copy);
      assert s'.phases[v] == s.phases[v];
    }
  }

  lemma {:induction false} InvRun(jobs: seq<Job>, fs0: map<string, string>, s: State, turns: seq<Turn>)
    requires Inv(jobs, fs0, s)
    ensures Inv(jobs, fs0, RunTurns(jobs, s, turns))
    decreases |turns|
  {
    if turns != [] {
      InvTurn(jobs, fs0, s, turns[0]);
      InvRun(jobs, fs0, TakeTurn(jobs, s, turns[0]), turns[1..]);
    }
  }

  // ---------------------------------------------------------------- what every schedule yields

  // Under every schedule and every pattern of faults: an earlier file is kept,
  // or replaced by the one worker that saved its own bytes over it; each saved
  // file has the worker's bytes under the first name that was free before the
  // batch, or over such a file; and no two workers share a name.
  lemma EverySchedule(jobs: seq<Job>, fs0: map<string, string>, turns: seq<Turn>)
    ensures var s := RunTurns(jobs, Start(jobs, fs0), turns);
            && (forall name :: name in fs0 ==> name in s.fs && (s.fs[name] == fs0[name] || Replaced(jobs, s, name)))
            && (forall w :: 0 <= w < |jobs| && s.phases[w].Saved? ==>
                  && Chosen(jobs, fs0, w, s.phases[w].copy, s.phases[w].over)
                  && NameOf(jobs, w, s.phases[w].copy) in s.fs
                  && s.fs[NameOf(jobs, w, s.phases[w].copy)] == jobs[w].bytes)
            && (forall v, w :: 0 <= v < w < |jobs| && s.phases[v].Saved? && s.phases[w].Saved? ==>
                  NameOf(jobs, v, s.phases[v].copy) != NameOf(jobs, w, s.phases[w].copy))
  {
    var s0 := Start(jobs, fs0);
    StartInv(jobs, fs0);
    InvRun(jobs, fs0, s0, turns);
    var s := RunTurns(jobs, s0, turns);
    forall w | 0 <= w < |jobs| && s.phases[w].Saved? ensures PhaseOk(jobs, fs0, s, w) {}
    forall v, w | 0 <= v < w < |jobs| && s.phases[v].Saved? && s.phases[w].Saved?
      ensures NameOf(jobs, v, s.phases[v].copy) != NameOf(jobs, w, s.phases[w].copy)
    {
      CandidatesDiffer(v, w, jobs[v].title, jobs[w].title, jobs[v].extension, jobs[w].extension,
                       s.phases[v].copy, s.phases[w].copy);
    }
  }

  // The probe before a rename errs on a name that is taken.
  predicate BadProbe(jobs: seq<Job>, s: State, turn: Turn)
    requires |s.phases| == |jobs|
  {
    && turn.worker < |jobs| && jobs[turn.worker].how == MoveIn && turn.fault != NoFault
    && s.phases[turn.worker].Trying? && s.phases[turn.worker].copy < MAX_COPIES
    && NameOf(jobs, turn.worker, s.phases[turn.worker].copy) in s.fs
  }

  predicate HasBadProbe(jobs: seq<Job>, s: State, turns: seq<Turn>)
    requires |s.phases| == |jobs|
    decreases |turns|
  {
    turns != [] && (BadProbe(jobs, s, turns[0]) || HasBadProbe(jobs, TakeTurn(jobs, s, turns[0]), turns[1..]))
  }

  ghost predicate BadProbeAt(jobs: seq<Job>, s: State, turns: seq<Turn>, i: nat)
    requires |s.phases| == |jobs| && i < |turns|
  {
    BadProbe(jobs, RunTurns(jobs, s, turns[..i]), turns[i])
  }

  lemma LaterBadProbe(jobs: seq<Job>, s: State, turns: seq<Turn>, i: nat)
    requires |s.phases| == |jobs| && i + 1 < |turns|
    ensures |TakeTurn(jobs, s, turns[0]).phases| == |jobs|
    ensures BadProbeAt(jobs, s, turns, i + 1) <==> BadProbeAt(jobs, TakeTurn(jobs, s, turns[0]), turns[1..], i)
  {
    OthersStay(jobs, s, turns[0]);
    assert turns[..i + 1][1..] == turns[1..][..i];
  }

  // Some turn of the schedule is a bad probe, in the state it finds.
  lemma {:induction false} HasBadProbeMeans(jobs: seq<Job>, s: State, turns: seq<Turn>)
    requires |s.phases| == |jobs|
    ensures HasBadProbe(jobs, s, turns) <==> exists i :: 0 <= i < |turns| && BadProbeAt(jobs, s, turns, i)
    decreases |turns|
  {
    if turns != [] {
      var next, rest := TakeTurn(jobs, s, turns[0]), turns[1..];
      OthersStay(jobs, s, turns[0]);
      HasBadProbeMeans(jobs, next, rest);
      assert BadProbeAt(jobs, s, turns, 0) <==> BadProbe(jobs, s, turns[0]);
      forall i | 0 <= i < |rest| ensures BadProbeAt(jobs, s, turns, i + 1) <==> BadProbeAt(jobs, next, rest, i) {
        LaterBadProbe(jobs, s, turns, i);
      }
      if i :| 0 <= i < |turns| && BadProbeAt(jobs, s, turns, i) {
        assert i > 0 ==> BadProbeAt(jobs, next, rest, i - 1);
      }
    }
  }

  // The worker is about to replace a file, or has done so.
  predicate Overwrites(p: Phase) { (p.FoundFree? && p.taken) || (p.Saved? && p.over) }

  predicate NoneOverwrites(s: State) { forall w :: 0 <= w < |s.phases| ==> !Overwrites(s.phases[w]) }

  lemma OthersStay(jobs: seq<Job>, s: State, turn: Turn)
    requires |s.phases| == |jobs|
    ensures var s' := TakeTurn(jobs, s, turn);
      && |s'.phases| == |jobs|
      && (forall v :: 0 <= v < |jobs| && v != turn.worker ==> s'.phases[v] == s.phases[v])
      && (turn.worker >= |jobs| ==> s' == s)
  {
  }

  lemma OwnPhaseOverwrites(jobs: seq<Job>, s: State, turn: Turn)
    requires |s.phases| == |jobs| && |TakeTurn(jobs, s, turn).phases| == |jobs| && turn.worker < |jobs|
    requires !Overwrites(s.phases[turn.worker])
    ensures Overwrites(TakeTurn(jobs, s, turn).phases[turn.worker]) <==> BadProbe(jobs, s, turn)
  {
    var w := turn.worker;
    if s.phases[w].Trying? && s.phases[w].copy < MAX_COPIES {
      assert TakeTurn(jobs, s, turn) == Try(jobs, s, w, s.phases[w].copy, turn.fault);
    }
  }

  // A worker comes to overwrite by a bad probe and by nothing else.
  lemma OverwritingNeedsBadProbe(jobs: seq<Job>, s: State, turn: Turn)
    requires |s.phases| == |jobs| && NoneOverwrites(s)
    ensures NoneOverwrites(TakeTurn(jobs, s, turn)) <==> !BadProbe(jobs, s, turn)
  {
    OthersStay(jobs, s, turn);
    if turn.worker < |jobs| { OwnPhaseOverwrites(jobs, s, turn); }
  }

  lemma {:induction false} NoBadProbeNoOverwriting(jobs: seq<Job>, s: State, turns: seq<Turn>)
    requires |s.phases| == |jobs| && NoneOverwrites(s) && !HasBadProbe(jobs, s, turns)
    ensures NoneOverwrites(RunTurns(jobs, s, turns))
    decreases |turns|
  {
    if turns != [] {
      OverwritingNeedsBadProbe(jobs, s, turns[0]);
      NoBadProbeNoOverwriting(jobs, TakeTurn(jobs, s, turns[0]), turns[1..]);
    }
  }

  // Without a bad probe, whatever else fails, no earlier file changes, and
  // every saved file has the first name that was free.
  lemma EarlierFilesStay(jobs: seq<Job>, fs0: map<string, string>, turns: seq<Turn>)
    requires !HasBadProbe(jobs, Start(jobs, fs0), turns)
    ensures var s := RunTurns(jobs, Start(jobs, fs0), turns);
            && (forall name :: name in fs0 ==> name in s.fs && s.fs[name] == fs0[name])
            && (forall w :: 0 <= w < |jobs| && s.phases[w].Saved? ==> FirstFree(jobs, fs0, w, s.phases[w].copy))
  {
    EverySchedule(jobs, fs0, turns);
    NoBadProbeNoOverwriting(jobs, Start(jobs, fs0), turns);
    var s := RunTurns(jobs, Start(jobs, fs0), turns);
    forall w | 0 <= w < |s.phases| ensures !Overwrites(s.phases[w]) {}
  }

  // After a bad probe the worker's next turn replaces the file by its own,
  // unless the rename fails, or is refused because the file is there: then the
  // worker goes on to the next name.
  lemma BadProbeReplaces(jobs: seq<Job>, s: State, probe: Turn, move: Turn)
    requires |s.phases| == |jobs| && BadProbe(jobs, s, probe) && move.worker == probe.worker
    ensures var w := probe.worker;
      var copy := s.phases[w].copy;
      var name := NameOf(jobs, w, copy);
      var after := TakeTurn(jobs, TakeTurn(jobs, s, probe), move);
      && name in s.fs && |after.phases| == |jobs|
      && (move.fault == NoFault ==> after.fs == s.fs[name := jobs[w].bytes])
      && (move.fault != NoFault ==>
            after.fs == s.fs && after.phases[w] == if move.fault == Refuses then Trying(copy + 1) else Broken(None))
  {
  }

  predicate NoFaults(turns: seq<Turn>) { forall i :: 0 <= i < |turns| ==> turns[i].fault == NoFault }

  predicate AllFinished(s: State) { forall w :: 0 <= w < |s.phases| ==> Finished(s.phases[w]) }

  predicate AllRegular(s: State) { forall w :: 0 <= w < |s.phases| ==> !s.phases[w].Broken? && !Overwrites(s.phases[w]) }

  // Schedule independence: two schedules without faults that let everyone
  // finish end in the same names and the same files.
  lemma SchedulesAgree(jobs: seq<Job>, fs0: map<string, string>, a: seq<Turn>, b: seq<Turn>)
    requires NoFaults(a) && AllFinished(RunTurns(jobs, Start(jobs, fs0), a))
    requires NoFaults(b) && AllFinished(RunTurns(jobs, Start(jobs, fs0), b))
    ensures RunTurns(jobs, Start(jobs, fs0), a) == RunTurns(jobs, Start(jobs, fs0), b)
  {
    var s0 := Start(jobs, fs0);
    StartInv(jobs, fs0);
    InvRun(jobs, fs0, s0, a);
    InvRun(jobs, fs0, s0, b);
    StaysRegular(jobs, s0, a);
    StaysRegular(jobs, s0, b);
    FinalStatesAgree(jobs, fs0, RunTurns(jobs, s0, a), RunTurns(jobs, s0, b));
  }

  lemma StartInv(jobs: seq<Job>, fs0: map<string, string>)
    ensures Inv(jobs, fs0, Start(jobs, fs0)) && AllRegular(Start(jobs, fs0))
  {
  }

  lemma FinalStatesAgree(jobs: seq<Job>, fs0: map<string, string>, s: State, t: State)
    requires Inv(jobs, fs0, s) && AllFinished(s) && AllRegular(s)
    requires Inv(jobs, fs0, t) && AllFinished(t) && AllRegular(t)
    ensures s == t
  {
    FinalPhasesAgree(jobs, fs0, s, t);
    FinalFilesAgree(jobs, fs0, s, t);
    FinalFilesAgree(jobs, fs0, t, s);
    assert s.fs == t.fs;
  }

  lemma RegularPhase(jobs: seq<Job>, s: State, turn: Turn)
    requires |s.phases| == |jobs| && |TakeTurn(jobs, s, turn).phases| == |jobs| && turn.worker < |jobs| && turn.fault == NoFault
    requires !s.phases[turn.worker].Broken? && !Overwrites(s.phases[turn.worker])
    ensures var p := TakeTurn(jobs, s, turn).phases[turn.worker]; !p.Broken? && !Overwrites(p)
  {
  }

  lemma RegularTurn(jobs: seq<Job>, s: State, turn: Turn)
    requires |s.phases| == |jobs| && AllRegular(s) && turn.fault == NoFault
    ensures AllRegular(TakeTurn(jobs, s, turn))
  {
    OthersStay(jobs, s, turn);
    if turn.worker < |jobs| { RegularPhase(jobs, s, turn); }
  }

  lemma {:induction false} StaysRegular(jobs: seq<Job>, s: State, turns: seq<Turn>)
    requires |s.phases| == |jobs| && AllRegular(s) && NoFaults(turns)
    ensures AllRegular(RunTurns(jobs, s, turns))
    decreases |turns|
  {
    if turns != [] {
      RegularTurn(jobs, s, turns[0]);
      StaysRegular(jobs, TakeTurn(jobs, s, turns[0]), turns[1..]);
    }
  }

  lemma FinalPhasesAgree(jobs: seq<Job>, fs0: map<string, string>, s: State, t: State)
    requires Inv(jobs, fs0, s) && AllFinished(s) && AllRegular(s)
    requires Inv(jobs, fs0, t) && AllFinished(t) && AllRegular(t)
    ensures s.phases == t.phases
  {
    forall w | 0 <= w < |jobs| ensures s.phases[w] == t.phases[w] {
      assert PhaseOk(jobs, fs0, s, w) && PhaseOk(jobs, fs0, t, w);
      if jobs[w].fetched {
        var a := if s.phases[w].Saved? then s.phases[w].copy else MAX_COPIES;
        var b := if t.phases[w].Saved? then t.phases[w].copy else MAX_COPIES;
        assert AllTaken(jobs, fs0, w, a) && AllTaken(jobs, fs0, w, b);
        assert a < MAX_COPIES ==> NameOf(jobs, w, a) !in fs0;
        assert b < MAX_COPIES ==> NameOf(jobs, w, b) !in fs0;
      }
    }
  }

  lemma FinalFilesAgree(jobs: seq<Job>, fs0: map<string, string>, s: State, t: State)
    requires Inv(jobs, fs0, s) && Inv(jobs, fs0, t) && s.phases == t.phases && AllFinished(s) && AllRegular(s)
    ensures forall name :: name in s.fs ==> name in t.fs && t.fs[name] == s.fs[name]
  {
    forall name | name in s.fs ensures name in t.fs && t.fs[name] == s.fs[name] {
      assert Accounted(jobs, fs0, s, name);
      if name !in fs0 {
        var w :| 0 <= w < |jobs| && Made(s.phases[w]).Some? && name == NameOf(jobs, w, Made(s.phases[w]).value);
        assert PhaseOk(jobs, fs0, s, w) && PhaseOk(jobs, fs0, t, w);
      }
    }
  }

  // ---------------------------------------------------------------- progress

  // How far a worker has come.
  function Rank(p: Phase): nat {
    match p
    case Trying(copy) => 2 * copy
    case Created(copy) => 2 * copy + 1
    case FoundFree(copy, _) => 2 * copy + 1
    case _ => 2 * MAX_COPIES + 1
  }

  predicate InBounds(p: Phase) {
    match p
    case Trying(copy) => copy <= MAX_COPIES
    case Created(copy) => copy < MAX_COPIES
    case FoundFree(copy, _) => copy < MAX_COPIES
    case _ => true
  }

  // Every turn of an unfinished worker, whatever fails, brings it further.
  lemma EveryTurnIsProgress(jobs: seq<Job>, s: State, turn: Turn)
    requires |s.phases| == |jobs| && turn.worker < |jobs| && InBounds(s.phases[turn.worker])
    ensures var s', w := TakeTurn(jobs, s, turn), turn.worker;
      && |s'.phases| == |jobs| && InBounds(s'.phases[w])
      && (if Finished(s.phases[w]) then s' == s else Rank(s.phases[w]) < Rank(s'.phases[w]) <= 2 * MAX_COPIES + 1)
  {
    var w := turn.worker;
    if s.phases[w].Trying? && s.phases[w].copy < MAX_COPIES {
      assert TakeTurn(jobs, s, turn) == Try(jobs, s, w, s.phases[w].copy, turn.fault);
    }
  }

  function TurnsOf(turns: seq<Turn>, w: nat): nat {
    if turns == [] then 0 else (if turns[0].worker == w then 1 else 0) + TurnsOf(turns[1..], w)
  }

  lemma {:induction false} WorkerFinishes(jobs: seq<Job>, s: State, turns: seq<Turn>, w: nat)
    requires |s.phases| == |jobs| && w < |jobs| && InBounds(s.phases[w])
    requires Rank(s.phases[w]) + TurnsOf(turns, w) > 2 * MAX_COPIES
    ensures Finished(RunTurns(jobs, s, turns).phases[w])
    decreases |turns|
  {
    if turns != [] {
      OthersStay(jobs, s, turns[0]);
      if turns[0].worker == w {
        EveryTurnIsProgress(jobs, s, turns[0]);
      }
      if Finished(s.phases[w]) {
        assert Rank(TakeTurn(jobs, s, turns[0]).phases[w]) == 2 * MAX_COPIES + 1;
      }
      WorkerFinishes(jobs, TakeTurn(jobs, s, turns[0]), turns[1..], w);
    }
  }

  // A worker with two thousand and one turns has finished, under any schedule
  // and any faults; without faults it has saved its file under the first free
  // name, unless all thousand names were taken before the batch began.
  lemma EveryoneFinishes(jobs: seq<Job>, fs0: map<string, string>, turns: seq<Turn>, w: nat)
    requires w < |jobs| && TurnsOf(turns, w) > 2000
    ensures var p := RunTurns(jobs, Start(jobs, fs0), turns).phases[w];
      && Finished(p)
      && (NoFaults(turns) && jobs[w].fetched ==>
            if p.Saved? then FirstFree(jobs, fs0, w, p.copy) else p == NoName && AllTaken(jobs, fs0, w, 1000))
  {
    var s0 := Start(jobs, fs0);
    WorkerFinishes(jobs, s0, turns, w);
    StartInv(jobs, fs0);
    InvRun(jobs, fs0, s0, turns);
    var s := RunTurns(jobs, s0, turns);
    assert PhaseOk(jobs, fs0, s, w);
    if NoFaults(turns) {
      StaysRegular(jobs, s0, turns);
      assert !s.phases[w].Broken? && !Overwrites(s.phases[w]);
    }
  }

  ghost function FirstNames(jobs: seq<Job>, w: nat, n: nat): set<string>
    requires w < |jobs|
  {
    if n == 0 then {} else FirstNames(jobs, w, n - 1) + {NameOf(jobs, w, n - 1)}
  }

  lemma {:induction false} NamesTakeRoom(jobs: seq<Job>, fs: map<string, string>, w: nat, n: nat)
    requires w < |jobs| && AllTaken(jobs, fs, w, n)
    ensures |FirstNames(jobs, w, n)| == n && FirstNames(jobs, w, n) <= fs.Keys
    ensures forall name :: name in FirstNames(jobs, w, n) ==> exists k: nat :: k < n && name == NameOf(jobs, w, k)
  {
    if n > 0 {
      NamesTakeRoom(jobs, fs, w, n - 1);
      var name := NameOf(jobs, w, n - 1);
      if name in FirstNames(jobs, w, n - 1) {
        var k: nat :| k < n - 1 && name == NameOf(jobs, w, k);
        CopiesDiffer(w, jobs[w].title, jobs[w].extension, k, n - 1);
      }
    }
  }

  lemma {:induction false} FewerKeys(part: set<string>, whole: set<string>)
    requires part <= whole
    ensures |part| <= |whole|
  {
    assert whole == part + (whole - part);
  }

  // Only a directory with a thousand files leaves a worker without a name.
  lemma RoomForAName(jobs: seq<Job>, fs: map<string, string>, w: nat)
    requires w < |jobs| && |fs| < 1000
    ensures !AllTaken(jobs, fs, w, 1000)
  {
    if AllTaken(jobs, fs, w, 1000) {
      NamesTakeRoom(jobs, fs, w, 1000);
      FewerKeys(FirstNames(jobs, w, 1000), fs.Keys);
    }
  }

  // ---------------------------------------------------------------- one worker alone

  // The loop over copy numbers, with nobody else around: it takes the first
  // free name, or fails when all are taken.
  method SaveUniqueDownload(jobs: seq<Job>, fs: map<string, string>, w: nat)
    returns (r: Option<string>, newFs: map<string, string>)
    requires w < |jobs|
    ensures r.Some? ==>
      && r.value !in fs && newFs == fs[r.value := jobs[w].bytes]
      && exists copy :: FirstFree(jobs, fs, w, copy) && r.value == NameOf(jobs, w, copy)
    ensures r.None? ==> newFs == fs && AllTaken(jobs, fs, w, MAX_COPIES)
  {
    for copy := 0 to MAX_COPIES
      invariant AllTaken(jobs, fs, w, copy)
    {
      var path := NameOf(jobs, w, copy);
      if path !in fs {
        assert FirstFree(jobs, fs, w, copy);
        return Some(path), fs[path := jobs[w].bytes];
      }
    }
    return None, fs;
  }

  // ---------------------------------------------------------------- joining

  // Joins the workers in spawn order: fails when one of them failed, otherwise
  // lists exactly the workers that saved a file, by index; a skipped download
  // leaves no gap.
  method JoinWorkers(phases: seq<Phase>) returns (r: Option<seq<nat>>)
    requires forall w :: 0 <= w < |phases| ==> Finished(phases[w])
    ensures r.None? <==> exists w :: 0 <= w < |phases| && (phases[w].NoName? || phases[w].Broken?)
    ensures r.Some? ==>
      && (forall k, l :: 0 <= k < l < |r.value| ==> r.value[k] < r.value[l])
      && (forall w: nat :: w in r.value <==> w < |phases| && phases[w].Saved?)
  {
    var indexed: seq<nat> := [];
    for w := 0 to |phases|
      invariant forall v :: 0 <= v < w ==> !phases[v].NoName? && !phases[v].Broken?
      invariant forall k, l :: 0 <= k < l < |indexed| ==> indexed[k] < indexed[l]
      invariant forall v: nat :: v in indexed <==> v < w && phases[v].Saved?
    {
      if phases[w].NoName? || phases[w].Broken? {
        return None;
      }
      if phases[w].Saved? {
        assert forall k :: 0 <= k < |indexed| ==> indexed[k] in indexed;
        indexed := indexed + [w];
      }
    }
    r := Some(indexed);
  }
}
