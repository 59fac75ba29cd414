/** The semaphore readers/writers protocol of 4_semaphore.cpp (`readerWriterExample`)
  * with any number of readers and writers: semaphore 0 guards reader_count, and
  * the first reader in and the last reader out handle semaphore 1 for all. */
module SemaphoreRW {
  import opened Sums

  /** A reader process with `left` rounds to go, at one point of its loop. */
  datatype Spot = Outside | Entering | WantsWriter | LeavingEntry | Reading | Exiting | FreesWriter | LeavingExit
  datatype Reader = Reader(at: Spot, left: nat)

  datatype Place = Away | Holds | Active | Finished
  datatype Writer = Writer(at: Place, left: nat)

  datatype State = State(readerMutex: nat, writerMutex: nat, readerCount: int, writerActive: bool,
                         readers: seq<Reader>, writers: seq<Writer>)

  datatype Action =
    | WaitReaderMutex(i: nat)
    | CountIn(i: nat)
    | WaitWriterMutex(i: nat)
    | SignalEntry(i: nat)
    | DoneReading(i: nat)
    | CountOut(i: nat)
    | SignalWriterMutex(i: nat)
    | SignalExit(i: nat)
    | WriterWaits(j: nat)
    | WriterStarts(j: nat)
    | WriterEnds(j: nat)
    | WriterSignals(j: nat)

  predicate ReaderAt(s: State, i: nat, at: Spot) {
    i < |s.readers| && s.readers[i].at == at && s.readers[i].left > 0
  }

  predicate WriterAt(s: State, j: nat, at: Place) {
    j < |s.writers| && s.writers[j].at == at && s.writers[j].left > 0
  }

  predicate Enabled(s: State, a: Action) {
    match a
    case WaitReaderMutex(i) => ReaderAt(s, i, Outside) && s.readerMutex > 0
    case CountIn(i) => ReaderAt(s, i, Entering)
    case WaitWriterMutex(i) => ReaderAt(s, i, WantsWriter) && s.writerMutex > 0
    case SignalEntry(i) => ReaderAt(s, i, LeavingEntry)
    case DoneReading(i) => ReaderAt(s, i, Reading) && s.readerMutex > 0
    case CountOut(i) => ReaderAt(s, i, Exiting)
    case SignalWriterMutex(i) => ReaderAt(s, i, FreesWriter)
    case SignalExit(i) => ReaderAt(s, i, LeavingExit)
    case WriterWaits(j) => WriterAt(s, j, Away) && s.writerMutex > 0
    case WriterStarts(j) => WriterAt(s, j, Holds)
    case WriterEnds(j) => WriterAt(s, j, Active)
    case WriterSignals(j) => WriterAt(s, j, Finished)
  }

  function Move(s: State, i: nat, at: Spot): State
    requires i < |s.readers|
  {
    s.(readers := s.readers[i := s.readers[i].(at := at)])
  }

  function MoveWriter(s: State, j: nat, at: Place): State
    requires j < |s.writers|
  {
    s.(writers := s.writers[j := s.writers[j].(at := at)])
  }

  function Step(s: State, a: Action): State
    requires Enabled(s, a)
  {
    match a
    case WaitReaderMutex(i) => Move(s, i, Entering).(readerMutex := Decrement(s.readerMutex))
    case CountIn(i) =>
      Move(s, i, if s.readerCount + 1 == 1 then WantsWriter else LeavingEntry).(readerCount := s.readerCount + 1)
    case WaitWriterMutex(i) => Move(s, i, LeavingEntry).(writerMutex := Decrement(s.writerMutex))
    case SignalEntry(i) => Move(s, i, Reading).(readerMutex := s.readerMutex + 1)
    case DoneReading(i) => Move(s, i, Exiting).(readerMutex := Decrement(s.readerMutex))
    case CountOut(i) =>
      Move(s, i, if s.readerCount - 1 == 0 then FreesWriter else LeavingExit).(readerCount := s.readerCount - 1)
    case SignalWriterMutex(i) => Move(s, i, LeavingExit).(writerMutex := s.writerMutex + 1)
    case SignalExit(i) =>
      s.(readers := s.readers[i := Reader(Outside, Decrement(s.readers[i].left))], readerMutex := s.readerMutex + 1)
    case WriterWaits(j) => MoveWriter(s, j, Holds).(writerMutex := Decrement(s.writerMutex))
    case WriterStarts(j) => MoveWriter(s, j, Active).(writerActive := true)
    case WriterEnds(j) => MoveWriter(s, j, Finished).(writerActive := false)
    case WriterSignals(j) =>
      s.(writers := s.writers[j := Writer(Away, Decrement(s.writers[j].left))], writerMutex := s.writerMutex + 1)
  }

  /** Readers and writers with given numbers of rounds. */
  function Init(readerRounds: seq<nat>, writerRounds: seq<nat>): State {
    State(1, 1, 0, false,
          seq(|readerRounds|, i requires 0 <= i < |readerRounds| => Reader(Outside, readerRounds[i])),
          seq(|writerRounds|, j requires 0 <= j < |writerRounds| => Writer(Away, writerRounds[j])))
  }

  // ---------------------------------------------------------------- invariant

  /** Holding semaphore 0. */
  function InMutex(r: Reader): nat {
    if r.at.Outside? || r.at.Reading? then 0 else 1
  }

  /** Included in reader_count. */
  function IsCounted(r: Reader): nat {
    if r.at.WantsWriter? || r.at.LeavingEntry? || r.at.Reading? || r.at.Exiting? then 1 else 0
  }

  function Wants(r: Reader): nat { if r.at.WantsWriter? then 1 else 0 }
  function Frees(r: Reader): nat { if r.at.FreesWriter? then 1 else 0 }
  function HoldsWriter(w: Writer): nat { if w.at.Away? then 0 else 1 }
  function IsActive(w: Writer): nat { if w.at.Active? then 1 else 0 }

  /** The readers as a group hold semaphore 1: some are counted and the first has
    * obtained it, or the last has still to give it back. */
  function GroupHolds(s: State): nat {
    if Sum(s.readers, Frees) > 0 || (s.readerCount > 0 && Sum(s.readers, Wants) == 0) then 1 else 0
  }

  ghost predicate Inv(s: State) {
    Counts(s) && Rounds(s)
  }

  /** What the semaphores and the counter say about who is where. */
  ghost predicate Counts(s: State) {
    && s.readerMutex + Sum(s.readers, InMutex) == 1
    && s.readerCount == Sum(s.readers, IsCounted)
    && s.writerMutex + Sum(s.writers, HoldsWriter) + GroupHolds(s) == 1
    && (Sum(s.readers, Wants) > 0 ==> s.readerCount == 1)
    && (Sum(s.readers, Frees) > 0 ==> s.readerCount == 0)
    && (s.writerActive <==> Sum(s.writers, IsActive) > 0)
  }

  /** Nobody is inside without a round to do. */
  ghost predicate Rounds(s: State) {
    && (forall i :: 0 <= i < |s.readers| && s.readers[i].left == 0 ==> s.readers[i].at == Outside)
    && (forall j :: 0 <= j < |s.writers| && s.writers[j].left == 0 ==> s.writers[j].at == Away)
  }

  lemma InitInv(readerRounds: seq<nat>, writerRounds: seq<nat>)
    ensures Inv(Init(readerRounds, writerRounds))
  {
    var s := Init(readerRounds, writerRounds);
    SumAll(s.readers, InMutex, 0);
    SumAll(s.readers, IsCounted, 0);
    SumAll(s.readers, Wants, 0);
    SumAll(s.readers, Frees, 0);
    SumAll(s.writers, HoldsWriter, 0);
    SumAll(s.writers, IsActive, 0);
  }

  predicate ByReader(a: Action) {
    !a.WriterWaits? && !a.WriterStarts? && !a.WriterEnds? && !a.WriterSignals?
  }

  /** A reader's step changes each count by what the reader itself contributes. */
  lemma ReaderCounts(s: State, i: nat, r: Reader)
    requires i < |s.readers|
    ensures var rs := s.readers[i := r];
      && Sum(rs, InMutex) + InMutex(s.readers[i]) == Sum(s.readers, InMutex) + InMutex(r)
      && Sum(rs, IsCounted) + IsCounted(s.readers[i]) == Sum(s.readers, IsCounted) + IsCounted(r)
      && Sum(rs, Wants) + Wants(s.readers[i]) == Sum(s.readers, Wants) + Wants(r)
      && Sum(rs, Frees) + Frees(s.readers[i]) == Sum(s.readers, Frees) + Frees(r)
  {
    SumUpdate(s.readers, InMutex, i, r);
    SumUpdate(s.readers, IsCounted, i, r);
    SumUpdate(s.readers, Wants, i, r);
    SumUpdate(s.readers, Frees, i, r);
  }

  lemma ReaderAlone(s: State, i: nat)
    requires i < |s.readers|
    ensures InMutex(s.readers[i]) <= Sum(s.readers, InMutex)
    ensures IsCounted(s.readers[i]) <= Sum(s.readers, IsCounted)
    ensures Wants(s.readers[i]) <= Sum(s.readers, Wants) && Frees(s.readers[i]) <= Sum(s.readers, Frees)
    ensures Sum(s.readers, Wants) + Sum(s.readers, Frees) + InMutex(s.readers[i])
         <= Sum(s.readers, InMutex) + Wants(s.readers[i]) + Frees(s.readers[i])
  {
    SumAtLeast(s.readers, InMutex, i);
    SumAtLeast(s.readers, IsCounted, i);
    SumAtLeast(s.readers, Wants, i);
    SumAtLeast(s.readers, Frees, i);
    ReaderCounts(s, i, Reader(Outside, 0));
    InMutexCovers(s.readers[i := Reader(Outside, 0)]);
  }

  lemma {:induction false} InMutexCovers(rs: seq<Reader>)
    ensures Sum(rs, Wants) + Sum(rs, Frees) <= Sum(rs, InMutex)
  {
    if |rs| > 0 { InMutexCovers(rs[..|rs| - 1]); }
  }

  lemma ReaderEntersKeeps(s: State, a: Action)
    requires Counts(s) && Enabled(s, a)
    requires a.WaitReaderMutex? || a.CountIn? || a.WaitWriterMutex? || a.SignalEntry?
    ensures Counts(Step(s, a))
  {
    ReaderCounts(s, a.i, Step(s, a).readers[a.i]);
    ReaderAlone(s, a.i);
    hide Sum;
  }

  lemma ReaderLeavesKeeps(s: State, a: Action)
    requires Counts(s) && Enabled(s, a)
    requires a.DoneReading? || a.CountOut? || a.SignalWriterMutex? || a.SignalExit?
    ensures Counts(Step(s, a))
  {
    ReaderCounts(s, a.i, Step(s, a).readers[a.i]);
    ReaderAlone(s, a.i);
    hide Sum;
  }

  /** One writer's step, as the counts see it. */
  lemma WriterCounts(s: State, j: nat, w: Writer)
    requires j < |s.writers|
    ensures var ws := s.writers[j := w];
      && Sum(ws, HoldsWriter) + HoldsWriter(s.writers[j]) == Sum(s.writers, HoldsWriter) + HoldsWriter(w)
      && Sum(ws, IsActive) + IsActive(s.writers[j]) == Sum(s.writers, IsActive) + IsActive(w)
      && Sum(ws, IsActive) <= Sum(ws, HoldsWriter)
    ensures HoldsWriter(s.writers[j]) <= Sum(s.writers, HoldsWriter) && Sum(s.writers, IsActive) <= Sum(s.writers, HoldsWriter)
  {
    SumUpdate(s.writers, HoldsWriter, j, w);
    SumUpdate(s.writers, IsActive, j, w);
    SumAtLeast(s.writers, HoldsWriter, j);
    ActiveHolds(s.writers);
    ActiveHolds(s.writers[j := w]);
  }

  lemma WriterStepKeeps(s: State, a: Action)
    requires Counts(s) && Enabled(s, a) && !ByReader(a)
    ensures Counts(Step(s, a))
  {
    hide Sum;
    WriterCounts(s, a.j, Step(s, a).writers[a.j]);
  }

  lemma RoundsKept(s: State, a: Action)
    requires Rounds(s) && Enabled(s, a)
    ensures Rounds(Step(s, a))
  {
  }

  lemma {:induction false} ActiveHolds(ws: seq<Writer>)
    ensures Sum(ws, IsActive) <= Sum(ws, HoldsWriter)
  {
    if |ws| > 0 { ActiveHolds(ws[..|ws| - 1]); }
  }

  lemma StepKeeps(s: State, a: Action)
    requires Inv(s) && Enabled(s, a)
    ensures Inv(Step(s, a))
  {
    RoundsKept(s, a);
    hide Counts, Rounds, Step, Enabled;
    if !ByReader(a) {
      WriterStepKeeps(s, a);
    } else if a.WaitReaderMutex? || a.CountIn? || a.WaitWriterMutex? || a.SignalEntry? {
      ReaderEntersKeeps(s, a);
    } else {
      ReaderLeavesKeeps(s, a);
    }
  }

  // ------------------------------------------------------------------- exclusion

  lemma {:induction false} WantsAreCounted(rs: seq<Reader>)
    ensures Sum(rs, Wants) <= Sum(rs, IsCounted)
  {
    if |rs| > 0 { WantsAreCounted(rs[..|rs| - 1]); }
  }

  /** Reading, or about to, or just done: inside the section the lock protects. */
  predicate InSection(r: Reader) {
    r.at.LeavingEntry? || r.at.Reading? || r.at.Exiting?
  }

  /** A writer inside excludes every reader and every other writer. */
  lemma WriterExcludesAll(s: State, j: nat)
    requires Inv(s) && j < |s.writers| && !s.writers[j].at.Away?
    ensures forall k :: 0 <= k < |s.writers| && k != j ==> s.writers[k].at.Away?
    ensures forall i :: 0 <= i < |s.readers| ==> !InSection(s.readers[i])
  {
    SumAtLeast(s.writers, HoldsWriter, j);
    forall k | 0 <= k < |s.writers| && k != j ensures s.writers[k].at.Away? {
      var ws := s.writers[j := Writer(Away, 0)];
      SumUpdate(s.writers, HoldsWriter, j, Writer(Away, 0));
      SumAtLeast(ws, HoldsWriter, k);
      assert ws[k] == s.writers[k];
    }
    forall i | 0 <= i < |s.readers| ensures !InSection(s.readers[i]) {
      ReaderCounts(s, i, Reader(Outside, 0));
      WantsAreCounted(s.readers[i := Reader(Outside, 0)]);
    }
  }

  /** With semaphore 0 free, reader_count is the number of readers reading. */
  lemma CountIsExact(s: State)
    requires Inv(s) && s.readerMutex == 1
    ensures s.readerCount == Sum(s.readers, IsReading)
  {
    CountedReading(s.readers);
  }

  function IsReading(r: Reader): nat { if r.at.Reading? then 1 else 0 }

  lemma {:induction false} CountedReading(rs: seq<Reader>)
    ensures Sum(rs, IsReading) <= Sum(rs, IsCounted) <= Sum(rs, IsReading) + Sum(rs, InMutex)
  {
    if |rs| > 0 { CountedReading(rs[..|rs| - 1]); }
  }

  // ------------------------------------------------------------------ who waits

  lemma MutexFree(s: State)
    requires Counts(s)
    ensures s.readerMutex > 0 <==> forall u: nat :: u < |s.readers| ==> InMutex(s.readers[u]) == 0
  {
    if Sum(s.readers, InMutex) > 0 {
      var u := SumWitness(s.readers, InMutex);
    }
    forall u: nat | u < |s.readers| ensures InMutex(s.readers[u]) <= Sum(s.readers, InMutex) { SumAtLeast(s.readers, InMutex, u); }
  }

  lemma WritersAway(s: State)
    ensures Sum(s.writers, HoldsWriter) == 0 <==> forall j: nat :: j < |s.writers| ==> s.writers[j].at.Away?
  {
    if Sum(s.writers, HoldsWriter) > 0 {
      var j := SumWitness(s.writers, HoldsWriter);
    }
    forall j: nat | j < |s.writers| ensures HoldsWriter(s.writers[j]) <= Sum(s.writers, HoldsWriter) {
      SumAtLeast(s.writers, HoldsWriter, j);
    }
  }

  /** A reader waits at semaphore 0 exactly while another is counting itself in or out,
    * and at semaphore 1 exactly while a writer has it; so readers read together. */
  lemma WhenReadersWait(s: State, i: nat)
    requires Inv(s) && i < |s.readers| && s.readers[i].left > 0
    ensures (forall a :: ByReader(a) && a.i == i ==> !Enabled(s, a)) <==>
      || ((s.readers[i].at.Outside? || s.readers[i].at.Reading?) && exists u: nat :: u < |s.readers| && InMutex(s.readers[u]) == 1)
      || (s.readers[i].at.WantsWriter? && exists j: nat :: j < |s.writers| && !s.writers[j].at.Away?)
  {
    MutexFree(s);
    WritersAway(s);
    SumAtLeast(s.readers, Wants, i);
    var a := match s.readers[i].at
      case Outside => WaitReaderMutex(i)
      case Entering => CountIn(i)
      case WantsWriter => WaitWriterMutex(i)
      case LeavingEntry => SignalEntry(i)
      case Reading => DoneReading(i)
      case Exiting => CountOut(i)
      case FreesWriter => SignalWriterMutex(i)
      case _ => SignalExit(i);
    assert ByReader(a) && a.i == i;
    hide Sum;
  }

  /** The readers hold semaphore 1 as long as one of them is in the section or about to
    * give it back. */
  lemma GroupIsInside(s: State)
    requires Counts(s)
    ensures GroupHolds(s) == 1 <==> exists i: nat :: i < |s.readers| && (InSection(s.readers[i]) || s.readers[i].at.FreesWriter?)
  {
    if Sum(s.readers, Frees) > 0 {
      var i := SumWitness(s.readers, Frees);
    } else if GroupHolds(s) == 1 {
      var i := SumWitness(s.readers, IsCounted);
      SumAtLeast(s.readers, Wants, i);
    }
    if i: nat :| i < |s.readers| && (InSection(s.readers[i]) || s.readers[i].at.FreesWriter?) {
      SumAtLeast(s.readers, Frees, i);
      ReaderCounts(s, i, Reader(Outside, 0));
      WantsAreCounted(s.readers[i := Reader(Outside, 0)]);
    }
  }

  /** A writer waits exactly while another writer is inside or the readers are. */
  lemma WhenWritersWait(s: State, j: nat)
    requires Inv(s) && j < |s.writers| && s.writers[j].left > 0
    ensures (forall a :: !ByReader(a) && a.j == j ==> !Enabled(s, a)) <==>
      s.writers[j].at.Away? &&
      ((exists k: nat :: k < |s.writers| && !s.writers[k].at.Away?) ||
       (exists i: nat :: i < |s.readers| && (InSection(s.readers[i]) || s.readers[i].at.FreesWriter?)))
  {
    GroupIsInside(s);
    WritersAway(s);
    hide Sum, GroupHolds;
    var a := match s.writers[j].at
      case Away => WriterWaits(j)
      case Holds => WriterStarts(j)
      case Active => WriterEnds(j)
      case Finished => WriterSignals(j);
    assert !ByReader(a) && a.j == j;
  }

  // -------------------------------------------------------------------- progress

  /** While anybody has a round to go, some step is possible. */
  lemma NeverStuck(s: State) returns (a: Action)
    requires Inv(s)
    requires (exists i :: 0 <= i < |s.readers| && s.readers[i].left > 0) || (exists j :: 0 <= j < |s.writers| && s.writers[j].left > 0)
    ensures Enabled(s, a)
  {
    if Sum(s.writers, HoldsWriter) > 0 {
      var j := SumWitness(s.writers, HoldsWriter);
      a := match s.writers[j].at
        case Holds => WriterStarts(j)
        case Active => WriterEnds(j)
        case _ => WriterSignals(j);
    } else if Sum(s.readers, InMutex) > 0 {
      var i := SumWitness(s.readers, InMutex);
      SumAtLeast(s.readers, Wants, i);
      ReaderAlone(s, i);
      a := match s.readers[i].at
        case Entering => CountIn(i)
        case WantsWriter => WaitWriterMutex(i)
        case LeavingEntry => SignalEntry(i)
        case Exiting => CountOut(i)
        case FreesWriter => SignalWriterMutex(i)
        case _ => SignalExit(i);
    } else if i :| 0 <= i < |s.readers| && s.readers[i].left > 0 {
      SumAtLeast(s.readers, InMutex, i);
      a := if s.readers[i].at.Reading? then DoneReading(i) else WaitReaderMutex(i);
    } else {
      var j :| 0 <= j < |s.writers| && s.writers[j].left > 0;
      NobodyCounted(s);
      SumAtLeast(s.writers, HoldsWriter, j);
      a := WriterWaits(j);
    }
  }

  lemma NobodyCounted(s: State)
    requires Inv(s) && forall i :: 0 <= i < |s.readers| ==> s.readers[i].left == 0
    ensures GroupHolds(s) == 0
  {
    SumAll(s.readers, IsCounted, 0);
    SumAll(s.readers, Frees, 0);
  }

  // ----------------------------------------------------------------- termination

  function ReaderLeft(r: Reader): nat {
    var pos := match r.at
      case Outside => 0
      case Entering => 1
      case WantsWriter => 2
      case LeavingEntry => 3
      case Reading => 4
      case Exiting => 5
      case FreesWriter => 6
      case LeavingExit => 7;
    if r.left == 0 then 0 else 8 * r.left - pos
  }

  function WriterLeft(w: Writer): nat {
    var pos := match w.at
      case Away => 0
      case Holds => 1
      case Active => 2
      case Finished => 3;
    if w.left == 0 then 0 else 4 * w.left - pos
  }

  function StepsLeft(s: State): nat {
    Sum(s.readers, ReaderLeft) + Sum(s.writers, WriterLeft)
  }

  lemma StepShrinks(s: State, a: Action)
    requires Enabled(s, a)
    ensures StepsLeft(Step(s, a)) < StepsLeft(s)
  {
    hide Enabled, Step, StepsLeft;
    if ByReader(a) { ReaderShrinks(s, a); } else { WriterShrinks(s, a); }
  }

  lemma ReaderShrinks(s: State, a: Action)
    requires Enabled(s, a) && ByReader(a)
    ensures StepsLeft(Step(s, a)) < StepsLeft(s)
  {
    SumUpdate(s.readers, ReaderLeft, a.i, Step(s, a).readers[a.i]);
    hide Sum;
  }

  lemma WriterShrinks(s: State, a: Action)
    requires Enabled(s, a) && !ByReader(a)
    ensures StepsLeft(Step(s, a)) < StepsLeft(s)
  {
    SumUpdate(s.writers, WriterLeft, a.j, Step(s, a).writers[a.j]);
    hide Sum;
  }

  type Run = seq<Action>

  predicate CanRun(s: State, r: Run)
    decreases |r|
  {
    |r| == 0 || (Enabled(s, r[0]) && CanRun(Step(s, r[0]), r[1..]))
  }

  function Exec(s: State, r: Run): State
    requires CanRun(s, r)
    decreases |r|
  {
    if |r| == 0 then s else Exec(Step(s, r[0]), r[1..])
  }

  lemma {:induction false} RunKeeps(s: State, r: Run)
    requires Inv(s) && CanRun(s, r)
    ensures Inv(Exec(s, r)) && |r| + StepsLeft(Exec(s, r)) <= StepsLeft(s)
    decreases |r|
  {
    hide Inv, Enabled, Step, StepsLeft;
    if |r| > 0 {
      StepKeeps(s, r[0]);
      StepShrinks(s, r[0]);
      RunKeeps(Step(s, r[0]), r[1..]);
    }
  }

  // ----------------------------------------------------------- rounds and sharing

  /** How often reader i has finished reading, and writer j writing, in a run. */
  function Readings(r: Run, i: nat): nat {
    if |r| == 0 then 0 else (if r[0] == DoneReading(i) then 1 else 0) + Readings(r[1..], i)
  }

  function Writings(r: Run, j: nat): nat {
    if |r| == 0 then 0 else (if r[0] == WriterEnds(j) then 1 else 0) + Writings(r[1..], j)
  }

  /** Readings and writings still to come. */
  function ReadsDue(r: Reader): nat {
    if r.at.Exiting? || r.at.FreesWriter? || r.at.LeavingExit? then Decrement(r.left) else r.left
  }

  function WritesDue(w: Writer): nat {
    if w.at.Finished? then Decrement(w.left) else w.left
  }

  lemma DueStep(s: State, a: Action, i: nat, j: nat)
    requires Enabled(s, a)
    ensures var t := Step(s, a);
      && |t.readers| == |s.readers| && |t.writers| == |s.writers|
      && (i < |s.readers| ==> ReadsDue(t.readers[i]) + (if a == DoneReading(i) then 1 else 0) == ReadsDue(s.readers[i]))
      && (j < |s.writers| ==> WritesDue(t.writers[j]) + (if a == WriterEnds(j) then 1 else 0) == WritesDue(s.writers[j]))
  {
  }

  lemma {:induction false} RoundsCount(s: State, r: Run, i: nat, j: nat)
    requires CanRun(s, r)
    ensures var t := Exec(s, r);
      && |t.readers| == |s.readers| && |t.writers| == |s.writers|
      && (i < |s.readers| ==> ReadsDue(t.readers[i]) + Readings(r, i) == ReadsDue(s.readers[i]))
      && (j < |s.writers| ==> WritesDue(t.writers[j]) + Writings(r, j) == WritesDue(s.writers[j]))
    decreases |r|
  {
    hide Step, Enabled, ReadsDue, WritesDue;
    if |r| > 0 {
      DueStep(s, r[0], i, j);
      RoundsCount(Step(s, r[0]), r[1..], i, j);
    }
  }

  lemma {:induction false} RunAppend(s: State, r: Run, q: Run)
    requires CanRun(s, r) && CanRun(Exec(s, r), q)
    ensures CanRun(s, r + q) && Exec(s, r + q) == Exec(Exec(s, r), q)
    decreases |r|
  {
    if |r| == 0 {
      assert r + q == q;
    } else {
      assert (r + q)[1..] == r[1..] + q;
      RunAppend(Step(s, r[0]), r[1..], q);
    }
  }

  lemma OneStep(s: State, a: Action)
    requires Enabled(s, a)
    ensures CanRun(s, [a]) && Exec(s, [a]) == Step(s, a)
  {
    assert CanRun(Step(s, a), [a][1..]);
  }

  /** r from the start leads to s. */
  ghost predicate Leads(readerRounds: seq<nat>, writerRounds: seq<nat>, r: Run, s: State) {
    CanRun(Init(readerRounds, writerRounds), r) && Exec(Init(readerRounds, writerRounds), r) == s
  }

  lemma Then(readerRounds: seq<nat>, writerRounds: seq<nat>, r: Run, s: State, a: Action) returns (q: Run, t: State)
    requires Leads(readerRounds, writerRounds, r, s) && Enabled(s, a)
    ensures Leads(readerRounds, writerRounds, q, t) && t == Step(s, a)
  {
    hide CanRun, Exec, Step, Enabled, Init;
    OneStep(s, a);
    RunAppend(Init(readerRounds, writerRounds), r, [a]);
    q, t := r + [a], Step(s, a);
  }

  /** The first k readers read, and nobody else has begun. */
  ghost predicate FirstRead(s: State, readerRounds: seq<nat>, writerRounds: seq<nat>, k: nat) {
    && |s.readers| == |readerRounds| && s.readerMutex == 1 && s.readerCount == k
    && s.writerMutex == (if k == 0 then 1 else 0) && s.writers == Init(readerRounds, writerRounds).writers
    && forall i :: 0 <= i < |readerRounds| ==> s.readers[i] == Reader(if i < k then Reading else Outside, readerRounds[i])
  }

  /** The next reader joins those that read already. */
  lemma NextReads(readerRounds: seq<nat>, writerRounds: seq<nat>, r: Run, s: State, i: nat) returns (q: Run, t: State)
    requires Leads(readerRounds, writerRounds, r, s) && ReaderAt(s, i, Outside)
    requires s.readerMutex == 1 && s.readerCount >= 0 && (s.readerCount == 0 ==> s.writerMutex == 1)
    ensures Leads(readerRounds, writerRounds, q, t)
    ensures t == s.(readers := s.readers[i := s.readers[i].(at := Reading)], readerCount := s.readerCount + 1,
                    writerMutex := if s.readerCount == 0 then 0 else s.writerMutex)
  {
    hide Leads, Init;
    q, t := Then(readerRounds, writerRounds, r, s, WaitReaderMutex(i));
    q, t := Then(readerRounds, writerRounds, q, t, CountIn(i));
    if s.readerCount == 0 { q, t := Then(readerRounds, writerRounds, q, t, WaitWriterMutex(i)); }
    q, t := Then(readerRounds, writerRounds, q, t, SignalEntry(i));
    assert t.readers == s.readers[i := s.readers[i].(at := Reading)];
  }

  /** All readers can be reading at once, however many there are. */
  lemma {:induction false} AllReadAtOnce(readerRounds: seq<nat>, writerRounds: seq<nat>, k: nat) returns (r: Run, s: State)
    requires k <= |readerRounds| && forall i :: 0 <= i < |readerRounds| ==> readerRounds[i] > 0
    ensures Leads(readerRounds, writerRounds, r, s) && FirstRead(s, readerRounds, writerRounds, k)
  {
    if k == 0 {
      r, s := [], Init(readerRounds, writerRounds);
    } else {
      r, s := AllReadAtOnce(readerRounds, writerRounds, k - 1);
      hide Leads, Init;
      r, s := NextReads(readerRounds, writerRounds, r, s, k - 1);
    }
  }

  /** With no round left, everybody has read or written as often as it wanted. */
  lemma RoundsServed(readerRounds: seq<nat>, writerRounds: seq<nat>, r: Run)
    requires CanRun(Init(readerRounds, writerRounds), r)
    ensures var s := Exec(Init(readerRounds, writerRounds), r);
      && |s.readers| == |readerRounds| && |s.writers| == |writerRounds|
      && (forall i :: 0 <= i < |readerRounds| && s.readers[i].left == 0 ==> Readings(r, i) == readerRounds[i])
      && (forall j :: 0 <= j < |writerRounds| && s.writers[j].left == 0 ==> Writings(r, j) == writerRounds[j])
  {
    var s0 := Init(readerRounds, writerRounds);
    var s := Exec(s0, r);
    hide Exec, CanRun;
    RoundsCount(s0, r, 0, 0);
    forall i | 0 <= i < |readerRounds| && s.readers[i].left == 0 ensures Readings(r, i) == readerRounds[i] {
      RoundsCount(s0, r, i, 0);
    }
    forall j | 0 <= j < |writerRounds| && s.writers[j].left == 0 ensures Writings(r, j) == writerRounds[j] {
      RoundsCount(s0, r, 0, j);
    }
  }

  /** For any readers and writers with any numbers of rounds: every run is finite,
    * no reachable state deadlocks, and a run that can go no further has let everybody
    * read or write exactly as often as it wanted. */
  lemma EveryRunCompletes(readerRounds: seq<nat>, writerRounds: seq<nat>, r: Run)
    requires CanRun(Init(readerRounds, writerRounds), r)
    ensures |r| <= StepsLeft(Init(readerRounds, writerRounds))
    ensures var s := Exec(Init(readerRounds, writerRounds), r);
      && |s.readers| == |readerRounds| && |s.writers| == |writerRounds|
      && ((forall a :: !Enabled(s, a)) <==>
            && (forall i :: 0 <= i < |s.readers| ==> s.readers[i].left == 0)
            && (forall j :: 0 <= j < |s.writers| ==> s.writers[j].left == 0))
      && ((forall a :: !Enabled(s, a)) ==>
            && (forall i :: 0 <= i < |readerRounds| ==> Readings(r, i) == readerRounds[i])
            && (forall j :: 0 <= j < |writerRounds| ==> Writings(r, j) == writerRounds[j]))
  {
    InitInv(readerRounds, writerRounds);
    RunKeeps(Init(readerRounds, writerRounds), r);
    RoundsServed(readerRounds, writerRounds, r);
    var s := Exec(Init(readerRounds, writerRounds), r);
    hide Exec, CanRun, Inv, Step, StepsLeft, Init, Readings, Writings;
    if !((forall i :: 0 <= i < |s.readers| ==> s.readers[i].left == 0)
         && (forall j :: 0 <= j < |s.writers| ==> s.writers[j].left == 0)) {
      var a := NeverStuck(s);
    }
  }
}
