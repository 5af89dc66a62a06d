/** `atomic_write_bytes` as steps on a directory, beside an adversary that owns the destination name. */
module AtomicWrite {
  import opened Options
  import opened Utf8

  type Bytes = seq<byte>

  /** The job: the data, whether an existing destination may be replaced, and whether exclusive
      publication consumes the staging name (a rename) or leaves it (a hard link). */
  datatype Job = Job(data: Bytes, overwrite: bool, consumes: bool)

  /** Where the writer is. */
  datatype Pc =
    | Begin       // before the staging file is created
    | Writing     // the staging file is open
    | Written     // it is closed with all the data in it
    | Ready       // mode set and hook run
    | Published   // published exclusively, the staging name still to be removed
    | Cleaned     // nothing left to do but the directory sync
    | Handling    // an error is being handled
    | Exited(ok: bool)
    | Crashed

  /** Two directory entries and the files behind them. */
  datatype State = State(
    disk: map<nat, Bytes>, dest: Option<nat>, temp: Option<nat>, pc: Pc, published: bool, unlinkFailed: bool)

  ghost predicate Fails(s: State, s': State) {
    s' == s.(pc := Handling)
  }

  ghost predicate Creates(s: State, s': State) {
    exists n: nat :: n !in s.disk && s' == s.(disk := s.disk[n := []], temp := Some(n), pc := Writing)
  }

  /** The first `k` bytes of the data are in the file; with all of them there it may be closed. */
  ghost predicate WritesUpTo(job: Job, s: State, s': State, k: nat) {
    && k <= |job.data| && s.temp.Some? && s.temp.value in s.disk && |s.disk[s.temp.value]| <= k
    && s' == s.(disk := s.disk[s.temp.value := job.data[..k]], pc := s'.pc)
    && (s'.pc == Writing || (s'.pc == Written && k == |job.data|))
  }

  ghost predicate Writes(job: Job, s: State, s': State) {
    exists k: nat :: WritesUpTo(job, s, s', k)
  }

  /** `os.replace`, or exclusive publication, which refuses an existing entry. */
  ghost predicate Publishes(job: Job, s: State, s': State) {
    if job.overwrite then
      s' == s.(dest := s.temp, temp := None, pc := Cleaned, published := true)
    else
      && s.dest.None?
      && s' == s.(dest := s.temp, temp := if job.consumes then None else s.temp, pc := Published, published := true)
  }

  ghost predicate WriterStep(job: Job, s: State, s': State) {
    match s.pc
    case Begin => Creates(s, s') || Fails(s, s')
    case Writing => Writes(job, s, s') || Fails(s, s')
    case Written => s' == s.(pc := Ready) || Fails(s, s')
    case Ready => Publishes(job, s, s') || Fails(s, s')
    case Published => s' == s.(temp := None, pc := Cleaned) || s' == s.(pc := Cleaned)
    case Cleaned => s' == s.(pc := Exited(true))
    case Handling =>
      s' == s.(temp := None, pc := Exited(false)) ||
      (s.temp.Some? && s' == s.(pc := Exited(false), unlinkFailed := true))
    case _ => false
  }

  /** The adversary re-points the destination and rewrites the file behind it, but does not know the
      staging file unless it is the destination already. */
  ghost predicate AdversaryStep(s: State, s': State) {
    && s' == s.(disk := s'.disk, dest := s'.dest)
    && (forall n :: n in s.disk ==> n in s'.disk && (s'.disk[n] == s.disk[n] || s.dest == Some(n)))
    && (s'.dest.Some? ==> s'.dest.value in s'.disk && (s'.dest == s.dest || s'.dest != s.temp))
  }

  ghost predicate CrashStep(s: State, s': State) {
    s' == s.(pc := Crashed)
  }

  ghost predicate Next(job: Job, s: State, s': State) {
    WriterStep(job, s, s') || AdversaryStep(s, s') || CrashStep(s, s')
  }

  ghost predicate Init(s: State) {
    s.pc == Begin && s.temp.None? && !s.published && !s.unlinkFailed && (s.dest.Some? ==> s.dest.value in s.disk)
  }

  /** Both names lead to files, and until publication to different ones. */
  ghost predicate Linked(s: State) {
    && (s.dest.Some? ==> s.dest.value in s.disk)
    && (s.temp.Some? ==> s.temp.value in s.disk)
    && (!s.published && s.temp.Some? ==> s.temp != s.dest)
  }

  ghost predicate Inv(job: Job, s: State) {
    Linked(s) && (s.unlinkFailed ==> s.pc == Exited(false) || s.pc == Crashed) &&
    match s.pc
    case Begin => !s.published && s.temp.None?
    case Writing => !s.published && s.temp.Some? && s.disk[s.temp.value] <= job.data
    case Written => !s.published && s.temp.Some? && s.disk[s.temp.value] == job.data
    case Ready => !s.published && s.temp.Some? && s.disk[s.temp.value] == job.data
    case Published => s.published
    case Cleaned => s.published
    case Handling => !s.published
    case Exited(ok) => s.published == ok && (!ok ==> s.temp.None? || s.unlinkFailed)
    case Crashed => true
  }

  lemma {:induction false} InitOk(job: Job, s: State)
    requires Init(s)
    ensures Inv(job, s)
  {
  }

  lemma {:induction false} WriterKeepsInv(job: Job, s: State, s': State)
    requires Inv(job, s) && WriterStep(job, s, s')
    ensures Inv(job, s')
  {
    assert job.data[..|job.data|] == job.data;
  }

  lemma {:induction false} AdversaryKeepsInv(job: Job, s: State, s': State)
    requires Inv(job, s) && AdversaryStep(s, s')
    ensures Inv(job, s')
  {
  }

  lemma {:induction false} NextKeepsInv(job: Job, s: State, s': State)
    requires Inv(job, s) && Next(job, s, s')
    ensures Inv(job, s')
  {
    if WriterStep(job, s, s') { WriterKeepsInv(job, s, s'); }
    if AdversaryStep(s, s') { AdversaryKeepsInv(job, s, s'); }
    hide WriterStep, AdversaryStep;
  }

  /** What a reader of the destination sees. */
  ghost function View(s: State): Option<Bytes> {
    if s.dest.Some? && s.dest.value in s.disk then Some(s.disk[s.dest.value]) else None
  }

  /** A writer's step that installs the data: all of it, and without `overwrite` only where nothing was. */
  ghost predicate Installs(job: Job, s: State, s': State) {
    && !s.published && s'.published && s'.dest.Some? && View(s') == Some(job.data)
    && (!job.overwrite ==> s.dest.None?)
  }

  ghost predicate LeavesDest(s: State, s': State) {
    s'.published == s.published && s'.dest == s.dest && View(s') == View(s)
  }

  lemma {:induction false} WriterEffect(job: Job, s: State, s': State)
    requires Inv(job, s) && WriterStep(job, s, s')
    ensures LeavesDest(s, s') || Installs(job, s, s')
  {
  }

  // ----- Runs -----

  ghost predicate Run(job: Job, run: seq<State>) {
    run != [] && Init(run[0]) && forall i :: 0 <= i < |run| - 1 ==> Next(job, run[i], run[i + 1])
  }

  lemma {:induction false} RunInv(job: Job, run: seq<State>, i: nat)
    requires Run(job, run) && i < |run|
    ensures Inv(job, run[i])
    decreases i
  {
    hide Inv, Next, Init;
    if i == 0 {
      InitOk(job, run[0]);
    } else {
      RunInv(job, run, i - 1);
      assert Next(job, run[i - 1], run[i - 1 + 1]);
      NextKeepsInv(job, run[i - 1], run[i]);
    }
  }

  lemma {:induction false} StaysPublished(job: Job, run: seq<State>, i: nat, j: nat)
    requires Run(job, run) && i <= j < |run| && run[i].published
    ensures run[j].published
    decreases j - i
  {
    hide Inv, Next;
    if i < j {
      StaysPublished(job, run, i, j - 1);
      RunInv(job, run, j - 1);
      assert Next(job, run[j - 1], run[j - 1 + 1]);
      PublicationStays(job, run[j - 1], run[j]);
    }
  }

  lemma {:induction false} PublicationStays(job: Job, s: State, s': State)
    requires Inv(job, s) && Next(job, s, s') && s.published
    ensures s'.published
  {
    if WriterStep(job, s, s') { WriterEffect(job, s, s'); }
  }

  /** Step by step, over any interleaving with the adversary and any crash: what is not the adversary's
      doing leaves the destination alone or installs exactly the data. */
  lemma {:induction false} EveryStep(job: Job, run: seq<State>, i: nat)
    requires Run(job, run) && i + 1 < |run|
    ensures LeavesDest(run[i], run[i + 1]) || Installs(job, run[i], run[i + 1]) || AdversaryStep(run[i], run[i + 1])
  {
    RunInv(job, run, i);
    assert Next(job, run[i], run[i + 1]);
    if WriterStep(job, run[i], run[i + 1]) { WriterEffect(job, run[i], run[i + 1]); }
    hide WriterStep, AdversaryStep;
  }

  /** There is at most one installing step. */
  lemma {:induction false} OneInstallation(job: Job, run: seq<State>, i: nat, j: nat)
    requires Run(job, run) && i + 1 < |run| && j + 1 < |run|
    requires Installs(job, run[i], run[i + 1]) && Installs(job, run[j], run[j + 1])
    ensures i == j
  {
    if i < j { StaysPublished(job, run, i + 1, j); }
    if j < i { StaysPublished(job, run, j + 1, i); }
  }

  /** After an error nothing was ever installed, and the staging file is gone unless its unlink failed. */
  lemma {:induction false} ErrorMeansUnpublished(job: Job, run: seq<State>, i: nat)
    requires Run(job, run) && i < |run| && run[i].pc == Exited(false)
    ensures run[i].temp.None? || run[i].unlinkFailed
    ensures forall j :: 0 <= j < i ==> !Installs(job, run[j], run[j + 1])
  {
    RunInv(job, run, i);
    forall j | 0 <= j < i ensures !Installs(job, run[j], run[j + 1]) {
      if run[j + 1].published { StaysPublished(job, run, j + 1, i); }
    }
  }

  /** The flag is set by an installing step only. */
  lemma {:induction false} PublishedMeansInstalled(job: Job, run: seq<State>, i: nat)
    requires Run(job, run) && i < |run| && run[i].published
    ensures exists j :: 0 <= j < i && Installs(job, run[j], run[j + 1])
    decreases i
  {
    hide WriterStep, Installs;
    if i > 0 {
      EveryStep(job, run, i - 1);
      if run[i - 1].published {
        PublishedMeansInstalled(job, run, i - 1);
        var j :| 0 <= j < i - 1 && Installs(job, run[j], run[j + 1]);
      } else {
        assert Installs(job, run[i - 1], run[i - 1 + 1]);
      }
    }
  }

  lemma {:induction false} ExitPublished(job: Job, s: State)
    requires Inv(job, s) && s.pc == Exited(true)
    ensures s.published
  {
  }

  /** A success means the data was installed. */
  lemma {:induction false} SuccessMeansInstalled(job: Job, run: seq<State>, i: nat)
    requires Run(job, run) && i < |run| && run[i].pc == Exited(true)
    ensures exists j :: 0 <= j < i && Installs(job, run[j], run[j + 1])
  {
    hide *;
    RunInv(job, run, i);
    ExitPublished(job, run[i]);
    PublishedMeansInstalled(job, run, i);
  }

  /** Without an adversary a reader sees what was there before or all of the data, at every moment and
      after a crash at any of them. */
  lemma {:induction false} OldOrComplete(job: Job, run: seq<State>, i: nat)
    requires Run(job, run) && i < |run|
    requires forall j :: 0 <= j < i ==> WriterStep(job, run[j], run[j + 1]) || CrashStep(run[j], run[j + 1])
    ensures View(run[i]) == if run[i].published then Some(job.data) else View(run[0])
    decreases i
  {
    if i > 0 {
      OldOrComplete(job, run, i - 1);
      RunInv(job, run, i - 1);
      assert WriterStep(job, run[i - 1], run[i - 1 + 1]) || CrashStep(run[i - 1], run[i - 1 + 1]);
      if WriterStep(job, run[i - 1], run[i]) { WriterEffect(job, run[i - 1], run[i]); }
      hide WriterStep;
    }
  }

  /** And it can succeed: undisturbed, with a fresh file and nothing in the way of an exclusive write. */
  lemma {:induction false} QuietRun(job: Job, s: State, n: nat) returns (run: seq<State>)
    requires Init(s) && n !in s.disk && (job.overwrite || s.dest.None?)
    ensures Run(job, run) && run[0] == s
    ensures run[|run| - 1].pc == Exited(true) && View(run[|run| - 1]) == Some(job.data)
  {
    var created := s.(disk := s.disk[n := []], temp := Some(n), pc := Writing);
    var written := created.(disk := created.disk[n := job.data[..|job.data|]], pc := Written);
    var ready := written.(pc := Ready);
    assert Creates(s, created);
    assert WritesUpTo(job, created, written, |job.data|);
    assert job.data[..|job.data|] == job.data;
    if job.overwrite {
      var cleaned := ready.(dest := ready.temp, temp := None, pc := Cleaned, published := true);
      run := [s, created, written, ready, cleaned, cleaned.(pc := Exited(true))];
    } else {
      var published := ready.(
        dest := ready.temp, temp := if job.consumes then None else ready.temp, pc := Published, published := true);
      var cleaned := published.(temp := None, pc := Cleaned);
      run := [s, created, written, ready, published, cleaned, cleaned.(pc := Exited(true))];
    }
  }

  /** The steps of an undisturbed writer up to the point where it may publish, the data written in two pieces. */
  function Quiet(job: Job, s: State, n: nat, k: nat): (run: seq<State>)
    requires k <= |job.data|
    ensures |run| == 5
  {
    var created := s.(disk := s.disk[n := []], temp := Some(n), pc := Writing);
    var part := created.(disk := created.disk[n := job.data[..k]]);
    var written := part.(disk := part.disk[n := job.data[..|job.data|]], pc := Written);
    [s, created, part, written, written.(pc := Ready)]
  }

  lemma {:induction false} QuietIsRun(job: Job, s: State, n: nat, k: nat)
    requires Init(s) && n !in s.disk && k <= |job.data|
    ensures Run(job, Quiet(job, s, n, k))
  {
    var run := Quiet(job, s, n, k);
    assert Creates(run[0], run[1]);
    assert WritesUpTo(job, run[1], run[2], k);
    assert WritesUpTo(job, run[2], run[3], |job.data|);
  }

  lemma {:induction false} RunMore(job: Job, run: seq<State>, s: State)
    requires Run(job, run) && Next(job, run[|run| - 1], s)
    ensures Run(job, run + [s])
  {
    hide Next, Init;
  }

  lemma {:induction false} RunLess(job: Job, run: seq<State>, n: nat)
    requires Run(job, run) && 0 < n <= |run|
    ensures Run(job, run[..n])
  {
    hide Next, Init;
    forall i | 0 <= i < n - 1 ensures Next(job, run[..n][i], run[..n][i + 1]) { assert Next(job, run[i], run[i + 1]); }
  }

  /** The writer can stop after any byte, with just those bytes in the staging file and the destination as it was. */
  lemma {:induction false} CutRun(job: Job, s: State, n: nat, k: nat) returns (run: seq<State>)
    requires Init(s) && n !in s.disk && k <= |job.data|
    ensures Run(job, run) && run[0] == s
    ensures var end := run[|run| - 1];
            end.pc == Crashed && end.dest == s.dest && end.temp == Some(n) && end.disk == s.disk[n := job.data[..k]]
  {
    QuietIsRun(job, s, n, k);
    RunLess(job, Quiet(job, s, n, k), 3);
    var part := Quiet(job, s, n, k)[..3];
    var end := part[2].(pc := Crashed);
    assert Next(job, part[2], end) by { assert CrashStep(part[2], end); }
    RunMore(job, part, end);
    run := part + [end];
  }

  /** It can fail before each of its first four steps, and cleans up unless the unlink fails too. */
  lemma {:induction false} FailRun(job: Job, s: State, n: nat, stage: nat, unlink: bool) returns (run: seq<State>)
    requires Init(s) && n !in s.disk && stage < 5 && (stage > 0 || unlink)
    ensures Run(job, run) && run[0] == s
    ensures var end := run[|run| - 1];
            && end.pc == Exited(false) && end.dest == s.dest && !end.published
            && (if unlink then end.temp == None else end.temp == Some(n) && end.unlinkFailed)
  {
    var quiet := Quiet(job, s, n, 0);
    QuietIsRun(job, s, n, 0);
    RunLess(job, quiet, stage + 1);
    var part := quiet[..stage + 1];
    var handling := part[stage].(pc := Handling);
    assert Next(job, part[stage], handling) by { assert Fails(part[stage], handling); }
    RunMore(job, part, handling);
    var end := if unlink then handling.(temp := None, pc := Exited(false))
               else handling.(pc := Exited(false), unlinkFailed := true);
    assert Next(job, handling, end) by { assert WriterStep(job, handling, end); }
    RunMore(job, part + [handling], end);
    run := part + [handling] + [end];
  }

  /** The adversary can put any content behind the destination, by a new file or in place, and remove it. */
  lemma {:induction false} AdversaryFree(s: State, m: nat, bs: Bytes)
    requires Linked(s)
    ensures m !in s.disk ==> AdversaryStep(s, s.(disk := s.disk[m := bs], dest := Some(m)))
    ensures s.dest.Some? ==> AdversaryStep(s, s.(disk := s.disk[s.dest.value := bs]))
    ensures AdversaryStep(s, s.(dest := None))
  {
  }
}
