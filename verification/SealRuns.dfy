/** Writers that take the ledger lock, interleaved and crashing at any byte. */
module SealRuns {
  import opened Options
  import opened PyText
  import opened JsonValues
  import opened PyLines
  import opened Seal
  import opened SealChain
  import opened SealCrash
  import opened Utf8

  /** What a writer is doing. The check under the lock and the write that follows it are separate
      steps, and the write may reach the file in pieces. */
  datatype Phase =
    | Idle
    | Locked(r: Request)
    | Writing(r: Request, base: seq<byte>, bytes: seq<byte>, entry: Entry, done: nat)
    | Finished

  datatype State = State(file: seq<byte>, writers: seq<Phase>)

  /** Between `flock(LOCK_EX)` and `flock(LOCK_UN)`. */
  predicate Holds(ph: Phase) {
    ph.Locked? || ph.Writing? || ph.Finished?
  }

  datatype Step =
    | Acquire(i: nat, r: Request)
    | Refuse(i: nat)
    | Begin(i: nat)
    | WriteMore(i: nat, upTo: nat)
    | Finish(i: nat)
    | Release(i: nat)
    | Crashed(i: nat)

  /** One step of one writer; a crash closes its file descriptor, which releases the lock. */
  ghost predicate Next(p: Platform, s: State, step: Step, s': State) {
    var i := step.i;
    && i < |s.writers|
    && match step
       case Acquire(_, r) =>
         && s.writers[i].Idle?
         && (forall j :: 0 <= j < |s.writers| ==> !Holds(s.writers[j]))
         && s' == s.(writers := s.writers[i := Locked(r)])
       case Refuse(_) =>
         && s.writers[i].Locked? && !PlanAppend(p, s.file, s.writers[i].r).Write?
         && s' == s.(writers := s.writers[i := Finished])
       case Begin(_) =>
         && s.writers[i].Locked?
         && var w := PlanAppend(p, s.file, s.writers[i].r);
         && w.Write?
         && s' == s.(writers := s.writers[i := Writing(s.writers[i].r, s.file, w.bytes, w.entry, 0)])
       case WriteMore(_, upTo) =>
         && s.writers[i].Writing? && s.writers[i].done < upTo <= |s.writers[i].bytes|
         && s' == State(s.file + s.writers[i].bytes[s.writers[i].done..upTo],
                        s.writers[i := s.writers[i].(done := upTo)])
       case Finish(_) =>
         && s.writers[i].Writing? && s.writers[i].done == |s.writers[i].bytes|
         && s' == s.(writers := s.writers[i := Finished])
       case Release(_) =>
         && s.writers[i].Finished?
         && s' == s.(writers := s.writers[i := Idle])
       case Crashed(_) =>
         && s' == s.(writers := s.writers[i := Idle])
  }

  /** A writer under the lock that does not crash begins its write exactly when the append is one that is written. */
  lemma {:induction false} LockedStep(p: Platform, s: State, step: Step, s': State)
    requires Next(p, s, step, s') && s.writers[step.i].Locked? && !step.Crashed?
    ensures s'.file == s.file
    ensures step.Begin? <==> PlanAppend(p, s.file, s.writers[step.i].r).Write?
    ensures !step.Begin? ==> step.Refuse? && s'.writers == s.writers[step.i := Finished]
  {
    hide PlanAppend;
  }

  /** The ledger verifies, begins with the entries `start`, and none added since names another ledger unless
      it is the first of all. */
  ghost predicate Good(p: Platform, start: seq<Entry>, file: seq<byte>) {
    && IntactFile(p, file) && start <= FileEntries(p, file)
    && forall k :: |start| <= k < |FileEntries(p, file)| && k > 0 ==> GENESIS_OF !in FileEntries(p, file)[k]
  }

  /** A good ledger is still there, and behind it one malformed line, or bytes that are not UTF-8: no later
      append extends it. */
  ghost predicate Dead(p: Platform, start: seq<Entry>, file: seq<byte>) {
    exists base: seq<byte> :: Good(p, start, base) && Spoilt(p, base, file)
  }

  ghost predicate Spoilt(p: Platform, base: seq<byte>, file: seq<byte>) {
    base <= file && (BrokenBehind(p, base, file) || IterLines(file) == None)
  }

  /** What every reachable state satisfies: at most one writer holds the lock, and the file is good,
      dead, or a good file with part of one planned write behind it. */
  ghost predicate Inv(p: Platform, start: seq<Entry>, s: State) {
    && (forall i, j | 0 <= i < |s.writers| && 0 <= j < |s.writers| ::
          Holds(s.writers[i]) && Holds(s.writers[j]) ==> i == j)
    && (forall i :: 0 <= i < |s.writers| && s.writers[i].Writing? ==> WriterOk(p, start, s.file, s.writers[i]))
    && ((forall i :: 0 <= i < |s.writers| ==> !s.writers[i].Writing?) ==>
          Good(p, start, s.file) || Dead(p, start, s.file))
  }

  ghost predicate WriterOk(p: Platform, start: seq<Entry>, file: seq<byte>, w: Phase)
    requires w.Writing?
  {
    && Good(p, start, w.base)
    && PlanAppend(p, w.base, w.r) == Write(w.bytes, w.entry)
    && w.done <= |w.bytes| && file == w.base + w.bytes[..w.done]
  }

  /** How the entries of a good ledger may change in one step: not at all, or one more at the end. */
  ghost predicate Grows(p: Platform, file: seq<byte>, file': seq<byte>, e: Entry) {
    FileEntries(p, file') == FileEntries(p, file) || FileEntries(p, file') == FileEntries(p, file) + [e]
  }

  /** An entry planned behind others does not name another ledger. */
  lemma {:induction false} NoLateGenesis(p: Platform, file: seq<byte>, r: Request)
    requires PlanAppend(p, file, r).Write?
    ensures FileEntries(p, file) != [] ==> GENESIS_OF !in PlanAppend(p, file, r).entry
  {
    var lines, seqNo, prev := PlanContinues(p, file, r);
    PlannedText(p, file, seqNo, prev, r);
    BuiltFacts(p, seqNo, prev, r);
    hide PlanAppend, PlanWrite, BuildEntry, Verify;
  }

  lemma {:induction false} GoodExtended(p: Platform, start: seq<Entry>, base: seq<byte>, file: seq<byte>, e: Entry)
    requires Good(p, start, base) && IntactFile(p, file) && FileEntries(p, file) == FileEntries(p, base) + [e]
    requires FileEntries(p, base) != [] ==> GENESIS_OF !in e
    ensures Good(p, start, file)
  {
    hide IntactFile, FileEntries, GENESIS_OF;
  }

  lemma {:induction false} GoodSame(p: Platform, start: seq<Entry>, base: seq<byte>, file: seq<byte>)
    requires Good(p, start, base) && IntactFile(p, file) && FileEntries(p, file) == FileEntries(p, base)
    ensures Good(p, start, file)
  {
    hide IntactFile, FileEntries, GENESIS_OF;
  }

  /** A write that has stopped, at any byte, leaves a good file or a dead one; a complete one adds its entry
      if its stamp is UTC to the second, and is the ledger's end otherwise. */
  lemma {:induction false} StoppedWrite(p: Platform, start: seq<Entry>, file: seq<byte>, w: Phase)
    requires Trusted(p) && w.Writing? && WriterOk(p, start, file, w)
    ensures Good(p, start, file) || Dead(p, start, file)
    ensures Good(p, start, file) ==> Grows(p, w.base, file, w.entry)
    ensures w.done == |w.bytes| ==>
              if IsSealedAt(w.r.sealedAt)
              then Good(p, start, file) && FileEntries(p, file) == FileEntries(p, w.base) + [w.entry]
              else Dead(p, start, file)
  {
    CrashTrichotomy(p, w.base, w.r, w.done);
    NoLateGenesis(p, w.base, w.r);
    assert file == After(w.base, w.bytes, w.done) && w.base <= file;
    hide *;
    SpoiltIsNotIntact(p, w.base, file);
    var complete, stamped := w.done == |w.bytes|, IsSealedAt(w.r.sealedAt);
    Completed(p, w.base, file, w.entry, stamped);
    Stopped(p, start, w.base, file, w.entry, complete, stamped);
  }

  /** Broken and intact exclude each other. */
  lemma {:induction false} SpoiltIsNotIntact(p: Platform, base: seq<byte>, file: seq<byte>)
    ensures IntactFile(p, file) ==> !BrokenBehind(p, base, file) && IterLines(file) != None
  {
    hide Verify, IterLines;
  }

  /** What a complete write leaves. */
  lemma {:induction false} Completed(p: Platform, base: seq<byte>, file: seq<byte>, e: Entry, stamped: bool)
    requires IntactFile(p, file) ==> !BrokenBehind(p, base, file)
    ensures Trichotomy(p, base, e, file, true, stamped) ==>
              if stamped then IntactFile(p, file) && FileEntries(p, file) == FileEntries(p, base) + [e]
              else BrokenBehind(p, base, file)
  {
    hide IntactFile, FileEntries, BrokenBehind, IterLines;
  }

  lemma {:induction false} Stopped(p: Platform, start: seq<Entry>, base: seq<byte>, file: seq<byte>, e: Entry,
                                   complete: bool, stamped: bool)
    requires Good(p, start, base) && Trichotomy(p, base, e, file, complete, stamped) && base <= file
    requires FileEntries(p, base) != [] ==> GENESIS_OF !in e
    requires IntactFile(p, file) ==> !BrokenBehind(p, base, file) && IterLines(file) != None
    requires complete ==>
               if stamped then IntactFile(p, file) && FileEntries(p, file) == FileEntries(p, base) + [e]
               else BrokenBehind(p, base, file)
    ensures Good(p, start, file) || Dead(p, start, file)
    ensures Good(p, start, file) ==> Grows(p, base, file, e)
    ensures complete ==>
              if stamped then Good(p, start, file) && FileEntries(p, file) == FileEntries(p, base) + [e]
              else Dead(p, start, file)
  {
    hide IntactFile, FileEntries, GENESIS_OF, BrokenBehind, IterLines;
    if IntactFile(p, file) {
      if FileEntries(p, file) == FileEntries(p, base) {
        GoodSame(p, start, base, file);
      } else {
        GoodExtended(p, start, base, file, e);
      }
    } else {
      assert Spoilt(p, base, file);
    }
    hide Good;
  }

  /** Nothing is ever written behind a dead ledger. */
  lemma {:induction false} DeadRefuses(p: Platform, start: seq<Entry>, file: seq<byte>, r: Request)
    requires Dead(p, start, file)
    ensures PlanAppend(p, file, r) == Refused
  {
    hide Good, PlanAppend, BrokenBehind, BrokenAtLastLine, IterLines;
    var base :| Good(p, start, base) && Spoilt(p, base, file);
    if BrokenBehind(p, base, file) { BehindIsLast(p, base, file); }
    BrokenRefuses(p, file, r);
  }

  lemma {:induction false} BeginOk(p: Platform, start: seq<Entry>, s: State, i: nat)
    requires Inv(p, start, s) && i < |s.writers| && s.writers[i].Locked?
    requires PlanAppend(p, s.file, s.writers[i].r).Write?
    ensures Good(p, start, s.file)
  {
    hide PlanAppend, Good, Dead, WriterOk;
    if Dead(p, start, s.file) { DeadRefuses(p, start, s.file, s.writers[i].r); }
  }

  lemma {:induction false} StepKeepsInv(p: Platform, start: seq<Entry>, s: State, step: Step, s': State)
    requires Trusted(p) && Inv(p, start, s) && Next(p, s, step, s')
    ensures Inv(p, start, s')
  {
    hide Inv, Trusted, PlanAppend;
    var i := step.i;
    OthersStay(p, s, step, s');
    if step.Begin? {
      BeginOk(p, start, s, i);
      StartedOk(p, start, s, s'.writers[i]);
      WritesOk(p, start, s, i, s');
    } else if step.WriteMore? {
      WriterIsOk(p, start, s, i);
      WroteMore(p, start, s.file, s.writers[i], s'.file, step.upTo);
      WritesOk(p, start, s, i, s');
    } else if s.writers[i].Writing? {
      WriterIsOk(p, start, s, i);
      StoppedWrite(p, start, s.file, s.writers[i]);
      EndsOk(p, start, s, i, s');
    } else {
      StillOk(p, start, s, i, s');
    }
  }

  /** A step is one writer's, and only a free lock is taken. */
  lemma {:induction false} OthersStay(p: Platform, s: State, step: Step, s': State)
    requires Next(p, s, step, s')
    ensures |s'.writers| == |s.writers| &&
              forall j :: 0 <= j < |s.writers| && j != step.i ==> s'.writers[j] == s.writers[j]
    ensures Holds(s'.writers[step.i]) && !Holds(s.writers[step.i]) ==>
              forall j :: 0 <= j < |s.writers| ==> !Holds(s.writers[j])
  {
    hide PlanAppend;
  }

  lemma {:induction false} WriterIsOk(p: Platform, start: seq<Entry>, s: State, i: nat)
    requires Inv(p, start, s) && i < |s.writers| && s.writers[i].Writing?
    ensures WriterOk(p, start, s.file, s.writers[i])
  {
    hide WriterOk, Good, Dead;
  }

  /** A writer that holds the lock writes. */
  lemma {:induction false} WritesOk(p: Platform, start: seq<Entry>, s: State, i: nat, s': State)
    requires Inv(p, start, s) && i < |s.writers| && Holds(s.writers[i])
    requires |s'.writers| == |s.writers| && forall j :: 0 <= j < |s.writers| && j != i ==> s'.writers[j] == s.writers[j]
    requires s'.writers[i].Writing? && WriterOk(p, start, s'.file, s'.writers[i])
    ensures Inv(p, start, s')
  {
    hide WriterOk, Good, Dead;
    assert forall j :: 0 <= j < |s.writers| && j != i ==> !Holds(s.writers[j]);
  }

  /** A writer stops writing. */
  lemma {:induction false} EndsOk(p: Platform, start: seq<Entry>, s: State, i: nat, s': State)
    requires Inv(p, start, s) && i < |s.writers| && s.writers[i].Writing?
    requires |s'.writers| == |s.writers| && !s'.writers[i].Writing?
    requires forall j :: 0 <= j < |s.writers| && j != i ==> s'.writers[j] == s.writers[j]
    requires s'.file == s.file && (Good(p, start, s.file) || Dead(p, start, s.file))
    ensures Inv(p, start, s')
  {
    hide WriterOk, Good, Dead;
    assert forall j :: 0 <= j < |s.writers| && j != i ==> !Holds(s.writers[j]);
  }

  /** A step that neither writes nor ends a write. */
  lemma {:induction false} StillOk(p: Platform, start: seq<Entry>, s: State, i: nat, s': State)
    requires Inv(p, start, s) && i < |s.writers| && !s.writers[i].Writing?
    requires s'.file == s.file && |s'.writers| == |s.writers| && !s'.writers[i].Writing?
    requires forall j :: 0 <= j < |s.writers| && j != i ==> s'.writers[j] == s.writers[j]
    requires Holds(s'.writers[i]) && !Holds(s.writers[i]) ==> forall j :: 0 <= j < |s.writers| ==> !Holds(s.writers[j])
    ensures Inv(p, start, s')
  {
    hide Good, Dead, WriterOk;
    assert forall j :: 0 <= j < |s'.writers| && s'.writers[j].Writing? ==> s'.writers[j] == s.writers[j];
    if forall j :: 0 <= j < |s'.writers| ==> !s'.writers[j].Writing? {
      assert forall j :: 0 <= j < |s.writers| ==> !s.writers[j].Writing?;
    }
  }

  lemma {:induction false} StartedOk(p: Platform, start: seq<Entry>, s: State, w: Phase)
    requires Good(p, start, s.file) && w.Writing? && w.base == s.file && w.done == 0
    requires PlanAppend(p, s.file, w.r) == Write(w.bytes, w.entry)
    ensures WriterOk(p, start, s.file, w)
  {
    hide Good, PlanAppend;
    assert w.bytes[..0] == [] && w.base + [] == w.base;
  }

  lemma {:induction false} WroteMore(p: Platform, start: seq<Entry>, file: seq<byte>, w: Phase, file': seq<byte>,
                                     upTo: nat)
    requires w.Writing? && WriterOk(p, start, file, w) && w.done <= upTo <= |w.bytes|
    requires file' == file + w.bytes[w.done..upTo]
    ensures WriterOk(p, start, file', w.(done := upTo))
  {
    hide Good, PlanAppend;
    assert w.bytes[..w.done] + w.bytes[w.done..upTo] == w.bytes[..upTo];
    assert w.base + w.bytes[..w.done] + w.bytes[w.done..upTo] == w.base + w.bytes[..upTo];
  }

  // ----- Runs -----

  /** The run starts on any ledger that verifies, `start` being its entries; an absent one is the empty file. */
  ghost predicate Init(p: Platform, start: seq<Entry>, s: State) {
    && IntactFile(p, s.file) && FileEntries(p, s.file) == start
    && forall i :: 0 <= i < |s.writers| ==> s.writers[i].Idle?
  }

  ghost predicate Run(p: Platform, start: seq<Entry>, states: seq<State>, steps: seq<Step>) {
    |states| == |steps| + 1 && Init(p, start, states[0]) &&
    forall k :: 0 <= k < |steps| ==> Next(p, states[k], steps[k], states[k + 1])
  }

  lemma {:induction false} InitOk(p: Platform, start: seq<Entry>, s: State)
    requires Init(p, start, s)
    ensures Inv(p, start, s) && Good(p, start, s.file)
  {
    hide IntactFile, FileEntries, Dead, WriterOk;
  }

  /** A ledger that does not exist yet is such a start. */
  lemma {:induction false} EmptyFileGood(p: Platform)
    ensures IntactFile(p, []) && FileEntries(p, []) == []
  {
    OneLine("", 1);
    assert Decode([]) == Valid("");
    hide SplitLf, NonBlank, Decode;
    assert IterLines([]) == Some([]);
    hide IterLines;
  }

  lemma {:induction false} RunKeepsInv(p: Platform, start: seq<Entry>, states: seq<State>, steps: seq<Step>, k: nat)
    requires Trusted(p) && Run(p, start, states, steps) && k < |states|
    ensures Inv(p, start, states[k])
  {
    hide Inv, Next, Init;
    if k == 0 {
      InitOk(p, start, states[0]);
    } else {
      RunKeepsInv(p, start, states, steps, k - 1);
      StepKeepsInv(p, start, states[k - 1], steps[k - 1], states[k]);
    }
  }

  // ----- Which runs there are -----

  /** A writer takes the lock, finds that it may write, and writes up to `k` bytes in two pieces. */
  function Started(s: State, i: nat, r: Request, w: Plan, j: nat, k: nat): (states: seq<State>)
    requires i < |s.writers| && w.Write? && j < k <= |w.bytes|
    ensures |states| == 5
  {
    var locked := s.(writers := s.writers[i := Locked(r)]);
    var begun := s.(writers := s.writers[i := Writing(r, s.file, w.bytes, w.entry, 0)]);
    var part := State(s.file + w.bytes[0..j], s.writers[i := Writing(r, s.file, w.bytes, w.entry, j)]);
    var more := State(part.file + w.bytes[j..k], s.writers[i := Writing(r, s.file, w.bytes, w.entry, k)]);
    [s, locked, begun, part, more]
  }

  function StartSteps(i: nat, r: Request, j: nat, k: nat): (steps: seq<Step>)
    ensures |steps| == 4
  {
    [Acquire(i, r), Begin(i), WriteMore(i, j), WriteMore(i, k)]
  }

  lemma {:induction false} StartedIsRun(p: Platform, start: seq<Entry>, s: State, i: nat, r: Request, j: nat, k: nat)
    requires Init(p, start, s) && i < |s.writers| && PlanAppend(p, s.file, r).Write?
    requires 0 < j < k <= |PlanAppend(p, s.file, r).bytes|
    ensures Run(p, start, Started(s, i, r, PlanAppend(p, s.file, r), j, k), StartSteps(i, r, j, k))
  {
    hide IntactFile, FileEntries, PlanAppend;
    var w := PlanAppend(p, s.file, r);
    var states := Started(s, i, r, w, j, k);
    assert forall m :: 0 <= m < |s.writers| ==> !Holds(s.writers[m]);
    assert states[1].writers[i] == Locked(r) && states[1].file == s.file;
    assert states[2].writers == states[1].writers[i := Writing(r, s.file, w.bytes, w.entry, 0)];
    assert states[3].writers == states[2].writers[i := Writing(r, s.file, w.bytes, w.entry, j)];
    assert states[4].writers == states[3].writers[i := Writing(r, s.file, w.bytes, w.entry, k)];
  }

  lemma {:induction false} RunMore(p: Platform, start: seq<Entry>, states: seq<State>, steps: seq<Step>, step: Step,
                                   s: State)
    requires Run(p, start, states, steps) && Next(p, states[|steps|], step, s)
    ensures Run(p, start, states + [s], steps + [step])
  {
    hide Next, Init;
  }

  /** Where such a start has come, and that an idle writer again leaves all writers as they were. */
  lemma {:induction false} StartedEnd(s: State, i: nat, r: Request, w: Plan, j: nat, k: nat)
    requires i < |s.writers| && s.writers[i] == Idle && w.Write? && j < k <= |w.bytes|
    ensures Started(s, i, r, w, j, k)[0] == s
    ensures Started(s, i, r, w, j, k)[4] ==
            State(s.file + w.bytes[..k], s.writers[i := Writing(r, s.file, w.bytes, w.entry, k)])
    ensures s.writers[i := Writing(r, s.file, w.bytes, w.entry, k)][i := Idle] == s.writers
    ensures s.writers[i := Writing(r, s.file, w.bytes, w.entry, k)][i := Finished][i := Idle] == s.writers
  {
    assert w.bytes[0..j] + w.bytes[j..k] == w.bytes[..k];
    assert s.file + w.bytes[0..j] + w.bytes[j..k] == s.file + (w.bytes[0..j] + w.bytes[j..k]);
  }

  lemma {:induction false} LastSteps(p: Platform, s: State, i: nat)
    requires i < |s.writers|
    ensures Next(p, s, Crashed(i), s.(writers := s.writers[i := Idle]))
    ensures s.writers[i].Writing? && s.writers[i].done == |s.writers[i].bytes| ==>
              Next(p, s, Finish(i), s.(writers := s.writers[i := Finished]))
    ensures s.writers[i].Finished? ==> Next(p, s, Release(i), s.(writers := s.writers[i := Idle]))
  {
  }

  lemma {:induction false} AllIdle(p: Platform, start: seq<Entry>, s: State, i: nat)
    requires Init(p, start, s) && i < |s.writers|
    ensures s.writers[i] == Idle
  {
    hide IntactFile, FileEntries;
  }

  /** An append can be cut after any of its bytes, even between two pieces of the write: what it leaves is the file
      with just those bytes behind it and the lock free. */
  lemma {:induction false} CutRun(p: Platform, start: seq<Entry>, s: State, i: nat, r: Request, j: nat, k: nat)
      returns (states: seq<State>, steps: seq<Step>)
    requires Init(p, start, s) && i < |s.writers| && PlanAppend(p, s.file, r).Write?
    requires 0 < j < k <= |PlanAppend(p, s.file, r).bytes|
    ensures Run(p, start, states, steps) && states[0] == s
    ensures |states| == |steps| + 1 && states[|steps|] == s.(file := s.file + PlanAppend(p, s.file, r).bytes[..k])
  {
    hide *;
    var w := PlanAppend(p, s.file, r);
    AllIdle(p, start, s, i);
    StartedIsRun(p, start, s, i, r, j, k);
    StartedEnd(s, i, r, w, j, k);
    var run, more := Started(s, i, r, w, j, k), StartSteps(i, r, j, k);
    LastSteps(p, run[4], i);
    var end := run[4].(writers := run[4].writers[i := Idle]);
    RunMore(p, start, run, more, Crashed(i), end);
    states, steps := run + [end], more + [Crashed(i)];
    assert states[5] == end;
  }

  /** An append that nothing interrupts leaves the file with all its bytes and the lock free. */
  lemma {:induction false} WholeRun(p: Platform, start: seq<Entry>, s: State, i: nat, r: Request, j: nat)
      returns (states: seq<State>, steps: seq<Step>)
    requires Init(p, start, s) && i < |s.writers| && PlanAppend(p, s.file, r).Write?
    requires 0 < j < |PlanAppend(p, s.file, r).bytes|
    ensures Run(p, start, states, steps) && states[0] == s && forall n :: 0 <= n < |steps| ==> !steps[n].Crashed?
    ensures |states| == |steps| + 1 && states[|steps|] == s.(file := s.file + PlanAppend(p, s.file, r).bytes)
  {
    hide *;
    var w := PlanAppend(p, s.file, r);
    var k := |w.bytes|;
    AllIdle(p, start, s, i);
    StartedIsRun(p, start, s, i, r, j, k);
    StartedEnd(s, i, r, w, j, k);
    var run, more := Started(s, i, r, w, j, k), StartSteps(i, r, j, k);
    LastSteps(p, run[4], i);
    var finished := run[4].(writers := run[4].writers[i := Finished]);
    RunMore(p, start, run, more, Finish(i), finished);
    LastSteps(p, finished, i);
    var end := finished.(writers := finished.writers[i := Idle]);
    RunMore(p, start, run + [finished], more + [Finish(i)], Release(i), end);
    states, steps := run + [finished] + [end], more + [Finish(i)] + [Release(i)];
    assert states[6] == end && w.bytes[..k] == w.bytes;
    NoCrash(i, r, j, k);
  }

  lemma {:induction false} NoCrash(i: nat, r: Request, j: nat, k: nat)
    ensures var steps := StartSteps(i, r, j, k) + [Finish(i)] + [Release(i)];
            forall n :: 0 <= n < |steps| ==> !steps[n].Crashed?
  {
  }

  /** The ledger as of the last completed write: the file, or what a writer in mid-write found. */
  function Committed(file: seq<byte>, writers: seq<Phase>): seq<byte> {
    if writers == [] then file
    else if writers[0].Writing? then writers[0].base
    else Committed(file, writers[1..])
  }

  predicate OnlyWriter(writers: seq<Phase>, i: nat) {
    i < |writers| && writers[i].Writing? && forall j :: 0 <= j < |writers| && writers[j].Writing? ==> j == i
  }

  lemma {:induction false} CommittedIs(file: seq<byte>, writers: seq<Phase>)
    ensures (forall i :: 0 <= i < |writers| ==> !writers[i].Writing?) ==> Committed(file, writers) == file
    ensures forall i | 0 <= i < |writers| && OnlyWriter(writers, i) :: Committed(file, writers) == writers[i].base
    decreases |writers|
  {
    if writers != [] {
      var rest := writers[1..];
      CommittedIs(file, rest);
      forall i | 0 <= i < |writers| && OnlyWriter(writers, i)
        ensures Committed(file, writers) == writers[i].base {
        if i > 0 {
          assert rest[i - 1] == writers[i];
          assert forall j :: 0 <= j < |rest| ==> rest[j] == writers[j + 1];
          assert OnlyWriter(rest, i - 1);
        }
      }
    }
  }

  /** What one step does to the committed ledger: it never loses or changes an entry; finishing a
      write adds exactly one; a ledger that died stays dead. */
  ghost predicate History(p: Platform, start: seq<Entry>, before: seq<byte>, after: seq<byte>, sealing: bool) {
    var es, es' := FileEntries(p, before), FileEntries(p, after);
    && (Good(p, start, after) ==> Good(p, start, before) && es <= es' && |es'| <= |es| + 1)
    && (sealing ==> Good(p, start, after) && |es'| == |es| + 1)
  }

  /** The step ends a write whose stamp is UTC to the second. */
  predicate Seals(s: State, step: Step) {
    step.Finish? && step.i < |s.writers| && s.writers[step.i].Writing? && IsSealedAt(s.writers[step.i].r.sealedAt)
  }

  /** The step ends a write in another way: by a crash, or with another stamp. */
  predicate Spoils(s: State, step: Step) {
    step.i < |s.writers| && s.writers[step.i].Writing? &&
    (step.Crashed? || (step.Finish? && !IsSealedAt(s.writers[step.i].r.sealedAt)))
  }

  lemma {:induction false} StepHistory(p: Platform, start: seq<Entry>, s: State, step: Step, s': State)
    requires Trusted(p) && Inv(p, start, s) && Next(p, s, step, s')
    ensures History(p, start, Committed(s.file, s.writers), Committed(s'.file, s'.writers), Seals(s, step))
    ensures !Spoils(s, step) && Good(p, start, Committed(s.file, s.writers)) ==>
              Good(p, start, Committed(s'.file, s'.writers))
    ensures step.Finish? && !Seals(s, step) ==> Dead(p, start, Committed(s'.file, s'.writers))
  {
    CommittedIs(s.file, s.writers);
    CommittedIs(s'.file, s'.writers);
    var i := step.i;
    if s.writers[i].Writing? { StoppedWrite(p, start, s.file, s.writers[i]); }
    hide Good, Dead, Trusted, PlanAppend, IsSealedAt, FileEntries, Committed;
    if s.writers[i].Writing? {
      StepOfWriter(p, start, s, step, s');
    } else {
      assert !step.Begin? ==> s'.file == s.file;
      StepOfOther(p, start, s, step, s');
    }
  }

  lemma {:induction false} StepOfWriter(p: Platform, start: seq<Entry>, s: State, step: Step, s': State)
    requires Inv(p, start, s) && Next(p, s, step, s') && s.writers[step.i].Writing?
    requires var w := s.writers[step.i];
             && (Good(p, start, s.file) ==> Grows(p, w.base, s.file, w.entry))
             && (w.done == |w.bytes| ==>
                   if IsSealedAt(w.r.sealedAt)
                   then Good(p, start, s.file) && FileEntries(p, s.file) == FileEntries(p, w.base) + [w.entry]
                   else Dead(p, start, s.file))
    ensures History(p, start, Committed(s.file, s.writers), Committed(s'.file, s'.writers), Seals(s, step))
    ensures !Spoils(s, step) && Good(p, start, Committed(s.file, s.writers)) ==>
              Good(p, start, Committed(s'.file, s'.writers))
    ensures step.Finish? && !Seals(s, step) ==> Dead(p, start, Committed(s'.file, s'.writers))
  {
    CommittedIs(s.file, s.writers);
    CommittedIs(s'.file, s'.writers);
    hide Good, Dead, PlanAppend, IsSealedAt, FileEntries, Committed;
    var w := s.writers[step.i];
    assert OnlyWriter(s.writers, step.i);
    assert Committed(s.file, s.writers) == w.base;
    if step.WriteMore? {
      assert OnlyWriter(s'.writers, step.i) && s'.writers[step.i].base == w.base;
    } else {
      assert forall j :: 0 <= j < |s'.writers| ==> !s'.writers[j].Writing?;
      assert Committed(s'.file, s'.writers) == s.file;
    }
  }

  lemma {:induction false} StepOfOther(p: Platform, start: seq<Entry>, s: State, step: Step, s': State)
    requires Inv(p, start, s) && Next(p, s, step, s') && !s.writers[step.i].Writing?
    ensures Committed(s'.file, s'.writers) == Committed(s.file, s.writers)
  {
    CommittedIs(s.file, s.writers);
    CommittedIs(s'.file, s'.writers);
    hide Good, Dead, PlanAppend, IsSealedAt, FileEntries, Committed, WriterOk;
    if step.Begin? {
      assert forall j :: 0 <= j < |s.writers| ==> !s.writers[j].Writing?;
      assert OnlyWriter(s'.writers, step.i) && s'.writers[step.i].base == s.file;
    } else if j :| 0 <= j < |s.writers| && s.writers[j].Writing? {
      assert s'.writers[j] == s.writers[j];
      assert OnlyWriter(s.writers, j) && OnlyWriter(s'.writers, j);
    } else {
      assert forall k :: 0 <= k < |s'.writers| ==> !s'.writers[k].Writing?;
    }
  }

  /** Over any run, entries once committed never change: the ledger at one moment is a prefix of the
      ledger at any later moment at which it is good. */
  lemma {:induction false} EntriesNeverChange(p: Platform, start: seq<Entry>, states: seq<State>, steps: seq<Step>,
                                              j: nat, k: nat)
    requires Trusted(p) && Run(p, start, states, steps) && j <= k < |states|
    requires Good(p, start, Committed(states[k].file, states[k].writers))
    ensures Good(p, start, Committed(states[j].file, states[j].writers))
    ensures FileEntries(p, Committed(states[j].file, states[j].writers)) <=
            FileEntries(p, Committed(states[k].file, states[k].writers))
    decreases k
  {
    hide Inv, Next, Init, Good, FileEntries, Committed;
    if j < k {
      RunKeepsInv(p, start, states, steps, k - 1);
      StepHistory(p, start, states[k - 1], steps[k - 1], states[k]);
      EntriesNeverChange(p, start, states, steps, j, k - 1);
    }
  }

  /** The requests that hold the lock are stamped in UTC, to the second. */
  predicate AllUtc(s: State) {
    forall i :: 0 <= i < |s.writers| && (s.writers[i].Locked? || s.writers[i].Writing?) ==>
      IsSealedAt(s.writers[i].r.sealedAt)
  }

  predicate Undisturbed(step: Step) {
    !step.Crashed? && (step.Acquire? ==> IsSealedAt(step.r.sealedAt))
  }

  lemma {:induction false} UtcStep(p: Platform, s: State, step: Step, s': State)
    requires Next(p, s, step, s') && AllUtc(s) && Undisturbed(step)
    ensures AllUtc(s') && !Spoils(s, step)
  {
    hide IsSealedAt, PlanAppend;
    var i := step.i;
    assert forall j :: 0 <= j < |s.writers| && j != i ==> s'.writers[j] == s.writers[j];
  }

  /** Without crashes and other stamps the committed ledger is good at every moment, and it is the file whenever
      the lock is free. */
  lemma {:induction false} GoodWithoutCrashes(p: Platform, start: seq<Entry>, states: seq<State>, steps: seq<Step>,
                                              k: nat)
    requires Trusted(p) && Run(p, start, states, steps) && k < |states|
    requires forall i :: 0 <= i < k ==> Undisturbed(steps[i])
    ensures Good(p, start, Committed(states[k].file, states[k].writers)) && AllUtc(states[k])
    ensures (forall i :: 0 <= i < |states[k].writers| ==> !Holds(states[k].writers[i])) ==>
              Good(p, start, states[k].file)
  {
    hide Inv, Next, Init, Good, Trusted, Holds, Committed, FileEntries, AllUtc, Undisturbed;
    FreeIsCommitted(states[k]);
    if k == 0 {
      RunStart(p, start, states, steps);
    } else {
      RunKeepsInv(p, start, states, steps, k - 1);
      RunStep(p, start, states, steps, k - 1);
      StepHistory(p, start, states[k - 1], steps[k - 1], states[k]);
      GoodWithoutCrashes(p, start, states, steps, k - 1);
      UtcStep(p, states[k - 1], steps[k - 1], states[k]);
    }
  }

  lemma {:induction false} RunStep(p: Platform, start: seq<Entry>, states: seq<State>, steps: seq<Step>, k: nat)
    requires Run(p, start, states, steps) && k < |steps|
    ensures k + 1 < |states| && Next(p, states[k], steps[k], states[k + 1])
  {
    hide Next, Init;
  }

  lemma {:induction false} RunStart(p: Platform, start: seq<Entry>, states: seq<State>, steps: seq<Step>)
    requires Run(p, start, states, steps)
    ensures Good(p, start, Committed(states[0].file, states[0].writers)) && AllUtc(states[0])
  {
    hide IntactFile, FileEntries, IsSealedAt, Next, Inv, Good;
    InitOk(p, start, states[0]);
    CommittedIs(states[0].file, states[0].writers);
  }

  lemma {:induction false} FreeIsCommitted(s: State)
    ensures (forall i :: 0 <= i < |s.writers| ==> !Holds(s.writers[i])) ==> Committed(s.file, s.writers) == s.file
  {
    CommittedIs(s.file, s.writers);
  }

  /** With crashes and any stamps, whenever the lock is free the file is good, and then numbers its entries
      1, 2, 3, ..., each of the ledger's shape, or it is dead and refuses every append. */
  lemma {:induction false} FreeLockIsSettled(p: Platform, start: seq<Entry>, states: seq<State>, steps: seq<Step>,
                                             k: nat)
    requires Trusted(p) && Run(p, start, states, steps) && k < |states|
    requires forall i :: 0 <= i < |states[k].writers| ==> !Holds(states[k].writers[i])
    ensures Good(p, start, states[k].file) || Dead(p, start, states[k].file)
    ensures Good(p, start, states[k].file) ==> AllWellNumbered(FileEntries(p, states[k].file), |start|)
    ensures Dead(p, start, states[k].file) ==> forall r :: PlanAppend(p, states[k].file, r) == Refused
  {
    hide *;
    RunKeepsInv(p, start, states, steps, k);
    var file := states[k].file;
    FreeIsSettled(p, start, states[k]);
    if Good(p, start, file) { GoodNumbered(p, start, file); }
    if Dead(p, start, file) {
      forall r ensures PlanAppend(p, file, r) == Refused { DeadRefuses(p, start, file, r); }
    }
  }

  lemma {:induction false} FreeIsSettled(p: Platform, start: seq<Entry>, s: State)
    requires Inv(p, start, s) && forall i :: 0 <= i < |s.writers| ==> !Holds(s.writers[i])
    ensures Good(p, start, s.file) || Dead(p, start, s.file)
  {
    hide Good, Dead, WriterOk;
  }

  ghost predicate AllWellNumbered(es: seq<Entry>, known: nat) {
    forall n :: 0 <= n < |es| ==> WellNumbered(es[n], n, known)
  }

  /** Behind the first `known` entries only the first of all may name another ledger. */
  ghost predicate WellNumbered(e: Entry, n: nat, known: nat) {
    && EntryShape(Obj(e)) == ShapeOk
    && SEQ in e && e[SEQ] == Json.Int(n + 1)
    && (GENESIS_OF in e && n >= known ==> n == 0)
  }

  lemma {:induction false} GoodNumbered(p: Platform, start: seq<Entry>, file: seq<byte>)
    requires Good(p, start, file)
    ensures AllWellNumbered(FileEntries(p, file), |start|)
  {
    hide WellNumbered, Good, FileEntries;
    forall n | 0 <= n < |FileEntries(p, file)| ensures WellNumbered(FileEntries(p, file)[n], n, |start|) {
      NumberedEntry(p, start, file, n);
    }
  }

  lemma {:induction false} NumberedEntry(p: Platform, start: seq<Entry>, file: seq<byte>, n: nat)
    requires Good(p, start, file) && n < |FileEntries(p, file)|
    ensures WellNumbered(FileEntries(p, file)[n], n, |start|)
  {
    var lines := IterLines(file).value;
    EntryFacts(p, lines, n);
    assert FileEntries(p, file)[n] == EntryAt(p, lines[n].text);
    hide EntryShape, EntryAt, Verify, Entries, IterLines;
  }
}
