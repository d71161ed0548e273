/**
 Evaluations that read the store of last-seen sequences, judge, and then record, each under its own
 lock acquisition, interleaved in any way.
 */
module SequenceStore {
  import opened Wrappers
  import opened Lifecycle
  import opened SequenceFile
  import MapSums

  // ----- Interleaved evaluations ------------------------------------------------------------------

  /** One call of `evaluate_receipt_lifecycle_with_state`. */
  datatype Call = Call(receipt: ReceiptEnvelope, envelope: Envelope, root: Jwk, now: int)

  datatype Phase =
    | Verified(payload: Payload)
    | Judged(payload: Payload, minimum: int, evaluation: Evaluation)

  datatype Thread = Thread(call: Call, phase: Phase)

  /** An answer given to a caller; `recorded` when the feed was recorded before answering. */
  datatype Answer = Answer(key: string, evaluation: Evaluation, digest: string, recorded: bool)

  /** A sequence that can be stored and reached the recording transaction of a readable file. */
  datatype Attempt = Attempt(key: string, sequence: int)

  /** `hash` is the digest that feeds are recorded under. */
  datatype System = System(
    hash: string -> string, file: File, threads: map<nat, Thread>, attempts: seq<Attempt>, answers: seq<Answer>)

  datatype Move = Begin(id: nat, call: Call) | ReadAndJudge(id: nat) | RecordAndAnswer(id: nat)

  function KeyOf(c: Call): string { JwkThumbprint(c.root) }

  /** One atomic step of one thread; a thread whose step raises disappears without an answer. */
  ghost function Next(s: System, m: Move): System {
    match m
    case Begin(id, call) =>
      (match VerifyLifecycleEnvelope(call.envelope, call.root)
       case Err(_) => s
       case Ok(payload) => if id in s.threads then s else s.(threads := s.threads[id := Thread(call, Verified(payload))]))
    case ReadAndJudge(id) =>
      if id !in s.threads || !s.threads[id].phase.Verified? then s
      else
        var t := s.threads[id];
        (match MinimumIn(s.file, KeyOf(t.call))
         case Err(_) => s.(threads := s.threads - {id})
         case Ok(minimum) =>
           match EvaluateReceiptLifecycle(t.call.receipt, t.call.envelope, t.call.root, t.call.now, minimum)
           case Err(_) => s.(threads := s.threads - {id})
           case Ok(evaluation) => s.(threads := s.threads[id := t.(phase := Judged(t.phase.payload, minimum, evaluation))]))
    case RecordAndAnswer(id) =>
      if id !in s.threads || !s.threads[id].phase.Judged? then s
      else
        var t := s.threads[id];
        var key, phase := KeyOf(t.call), t.phase;
        var gone := s.(threads := s.threads - {id});
        var sequence, digest := phase.payload.feed.sequence, s.hash(phase.payload.text);
        if phase.evaluation.feedSequence < phase.minimum then
          gone.(answers := s.answers + [Answer(key, phase.evaluation, digest, false)])
        else
          var tried := if IsAttempt(s.file, sequence, digest) then gone.(attempts := s.attempts + [Attempt(key, sequence)]) else gone;
          match RecordIn(s.file, key, sequence, digest)
          case Err(_) => tried
          case Ok(file) => tried.(file := file, answers := s.answers + [Answer(key, phase.evaluation, digest, true)])
  }

  predicate IsAttempt(f: File, sequence: int, digest: string) {
    sequence >= 1 && IsDigest(digest) && Digits(sequence) <= MAX_DIGITS && Readable(f)
  }

  ghost function RunMoves(s: System, moves: seq<Move>): System
    decreases |moves|
  {
    if moves == [] then s else RunMoves(Next(s, moves[0]), moves[1..])
  }

  function Start(hash: string -> string, file: File): System { System(hash, file, map[], [], []) }

  // ----- What every interleaving keeps ---------------------------------------------------------------

  /** Judged threads carry the verdict of their own feed. */
  ghost predicate ThreadOk(t: Thread) {
    match t.phase
    case Verified(payload) => VerifyLifecycleEnvelope(t.call.envelope, t.call.root) == Ok(payload)
    case Judged(payload, minimum, evaluation) =>
      && VerifyLifecycleEnvelope(t.call.envelope, t.call.root) == Ok(payload)
      && EvaluateReceiptLifecycle(t.call.receipt, t.call.envelope, t.call.root, t.call.now, minimum) == Ok(evaluation)
  }

  /** The store is at or beyond a recorded answer, and at the same sequence holds its digest. */
  predicate Covers(roots: Roots, a: Answer) {
    && a.key in roots
    && (a.evaluation.feedSequence < roots[a.key].sequence
        || (a.evaluation.feedSequence == roots[a.key].sequence && roots[a.key].digest == Some(a.digest)))
  }

  ghost predicate Attained(initial: Roots, attempts: seq<Attempt>, key: string, sequence: int) {
    || (key in initial && initial[key].sequence == sequence)
    || (exists a <- attempts :: a.key == key && a.sequence == sequence)
  }

  predicate Below(roots: Roots, a: Attempt) {
    a.key in roots && a.sequence <= roots[a.key].sequence
  }

  /** Answers for one root follow one another without rollback or equivocation. */
  predicate InSequence(a: Answer, b: Answer) {
    a.recorded && b.recorded && a.key == b.key ==>
      && a.evaluation.feedSequence <= b.evaluation.feedSequence
      && (a.evaluation.feedSequence == b.evaluation.feedSequence ==> a.digest == b.digest)
  }

  /** No key is dropped, no sequence falls, and a digest recorded at a sequence stays at that sequence. */
  ghost predicate Advances(before: Roots, after: Roots) {
    forall key <- before.Keys ::
      && key in after && before[key].sequence <= after[key].sequence
      && (before[key].sequence == after[key].sequence && before[key].digest.Some? ==> after[key] == before[key])
  }

  ghost predicate ThreadsOk(threads: map<nat, Thread>) {
    forall id <- threads.Keys :: ThreadOk(threads[id])
  }

  ghost predicate RootsOk(initial: Roots, roots: Roots, attempts: seq<Attempt>) {
    && Advances(initial, roots)
    && (forall key <- roots.Keys :: Attained(initial, attempts, key, roots[key].sequence))
    && (forall a <- attempts :: Below(roots, a))
  }

  ghost predicate AnswersOk(roots: Roots, answers: seq<Answer>) {
    && (forall a <- answers :: if a.recorded then Covers(roots, a) else a.evaluation.state == UNKNOWN)
    && (forall i, j :: 0 <= i < j < |answers| ==> InSequence(answers[i], answers[j]))
  }

  ghost predicate SystemOk(initial: Roots, s: System) {
    ThreadsOk(s.threads) && RootsOk(initial, s.file.roots, s.attempts) && AnswersOk(s.file.roots, s.answers)
  }

  /** Recording moves one root forward and leaves every other root alone. */
  lemma RecordAdvances(f: File, key: string, sequence: int, digest: string)
    requires RecordIn(f, key, sequence, digest).Ok?
    ensures var after := RecordIn(f, key, sequence, digest).value.roots;
            && Advances(f.roots, after) && after[key] == Entry(sequence, Some(digest))
            && after.Keys == f.roots.Keys + {key}
            && forall k :: k != key && k in f.roots ==> after[k] == f.roots[k]
    ensures forall a: Answer :: Covers(f.roots, a) ==> Covers(RecordIn(f, key, sequence, digest).value.roots, a)
    ensures forall a: Attempt :: Below(f.roots, a) ==> Below(RecordIn(f, key, sequence, digest).value.roots, a)
    ensures IsAttempt(f, sequence, digest)
  {
    RecordedEntryOk(f, key, sequence, digest);
    hide Digits, DocumentSize, Readable;
  }

  /** An attempt that is not recorded was below what is stored. */
  lemma RefusedIsBelow(f: File, key: string, sequence: int, digest: string)
    requires IsAttempt(f, sequence, digest) && RecordIn(f, key, sequence, digest).Err?
    ensures key in f.roots && sequence <= f.roots[key].sequence
  {
    hide Digits, DocumentSize, Readable;
  }

  lemma AdvancesChain(a: Roots, b: Roots, c: Roots)
    requires Advances(a, b) && Advances(b, c)
    ensures Advances(a, c)
  {
  }

  /** An evaluation reports the sequence of its feed, and is unknown below the minimum it was given. */
  lemma EvaluationSequence(t: Thread)
    requires ThreadOk(t) && t.phase.Judged?
    ensures t.phase.evaluation.feedSequence == t.phase.payload.feed.sequence >= 1
    ensures t.phase.evaluation.feedSequence < t.phase.minimum ==> t.phase.evaluation.state == UNKNOWN
  {
  }

  lemma AttemptKeepsRoots(initial: Roots, roots: Roots, attempts: seq<Attempt>, extra: Attempt)
    requires RootsOk(initial, roots, attempts) && extra.key in roots && extra.sequence <= roots[extra.key].sequence
    ensures RootsOk(initial, roots, attempts + [extra])
  {
    forall key <- roots.Keys
      ensures Attained(initial, attempts + [extra], key, roots[key].sequence)
    {
      assert Attained(initial, attempts, key, roots[key].sequence);
      assert forall a <- attempts :: a in attempts + [extra];
    }
    assert Below(roots, extra);
  }

  lemma RecordKeepsRoots(initial: Roots, f: File, attempts: seq<Attempt>, key: string, sequence: int, digest: string)
    requires RootsOk(initial, f.roots, attempts) && RecordIn(f, key, sequence, digest).Ok?
    ensures RootsOk(initial, RecordIn(f, key, sequence, digest).value.roots, attempts + [Attempt(key, sequence)])
  {
    hide RecordIn;
    var roots, after, extra := f.roots, RecordIn(f, key, sequence, digest).value.roots, Attempt(key, sequence);
    RecordAdvances(f, key, sequence, digest);
    AdvancesChain(initial, roots, after);
    hide Advances;
    assert (attempts + [extra])[|attempts|] == extra;
    assert Below(after, extra);
    forall k <- after.Keys
      ensures Attained(initial, attempts + [extra], k, after[k].sequence)
    {
      if k != key {
        assert Attained(initial, attempts, k, roots[k].sequence);
        assert forall a <- attempts :: a in attempts + [extra];
      }
    }
  }

  lemma RecordKeepsAnswers(f: File, answers: seq<Answer>, key: string, digest: string, e: Evaluation)
    requires AnswersOk(f.roots, answers) && RecordIn(f, key, e.feedSequence, digest).Ok?
    ensures AnswersOk(RecordIn(f, key, e.feedSequence, digest).value.roots, answers + [Answer(key, e, digest, true)])
  {
    hide RecordIn;
    var after, extra := RecordIn(f, key, e.feedSequence, digest).value.roots, Answer(key, e, digest, true);
    RecordAdvances(f, key, e.feedSequence, digest);
    forall i | 0 <= i < |answers|
      ensures InSequence(answers[i], extra)
    {
      assert answers[i] in answers;
    }
  }

  lemma RecordStepKeeps(initial: Roots, s: System, id: nat)
    requires SystemOk(initial, s)
    ensures SystemOk(initial, Next(s, RecordAndAnswer(id)))
  {
    if id in s.threads && s.threads[id].phase.Judged? {
      var t := s.threads[id];
      var key, phase := KeyOf(t.call), t.phase;
      assert ThreadOk(t);
      EvaluationSequence(t);
      assert ThreadsOk(s.threads - {id});
      hide ThreadOk, ThreadsOk, RootsOk, AnswersOk, VerifyLifecycleEnvelope, EvaluateReceiptLifecycle;
      hide RecordIn, IsAttempt;
      var sequence, digest := phase.payload.feed.sequence, s.hash(phase.payload.text);
      if phase.evaluation.feedSequence < phase.minimum {
        UnknownKeepsAnswers(s.file.roots, s.answers, Answer(key, phase.evaluation, digest, false));
      } else if RecordIn(s.file, key, sequence, digest).Ok? {
        RecordAdvances(s.file, key, sequence, digest);
        RecordKeepsRoots(initial, s.file, s.attempts, key, sequence, digest);
        RecordKeepsAnswers(s.file, s.answers, key, digest, phase.evaluation);
      } else if IsAttempt(s.file, sequence, digest) {
        RefusedIsBelow(s.file, key, sequence, digest);
        AttemptKeepsRoots(initial, s.file.roots, s.attempts, Attempt(key, sequence));
      }
    }
  }

  lemma UnknownKeepsAnswers(roots: Roots, answers: seq<Answer>, extra: Answer)
    requires AnswersOk(roots, answers) && !extra.recorded && extra.evaluation.state == UNKNOWN
    ensures AnswersOk(roots, answers + [extra])
  {
  }

  lemma MoveKeeps(initial: Roots, s: System, m: Move)
    requires SystemOk(initial, s)
    ensures SystemOk(initial, Next(s, m))
  {
    match m
    case Begin(id, call) => hide VerifyLifecycleEnvelope, EvaluateReceiptLifecycle;
    case ReadAndJudge(id) => hide VerifyLifecycleEnvelope, EvaluateReceiptLifecycle;
    case RecordAndAnswer(id) => RecordStepKeeps(initial, s, id);
  }

  lemma {:induction false} MovesKeep(initial: Roots, s: System, moves: seq<Move>)
    requires SystemOk(initial, s)
    ensures SystemOk(initial, RunMoves(s, moves))
    decreases |moves|
  {
    hide SystemOk, Next;
    if moves != [] {
      MoveKeeps(initial, s, moves[0]);
      MovesKeep(initial, Next(s, moves[0]), moves[1..]);
    }
  }

  lemma StartIsOk(hash: string -> string, file: File)
    ensures SystemOk(file.roots, Start(hash, file))
  {
  }

  // ----- Results -----------------------------------------------------------------------------------------

  /**
   In every interleaving, the stored sequence of a root is the largest among what was stored
   at the start and what has been attempted since.
   */
  lemma StoredIsMaximum(hash: string -> string, initial: File, moves: seq<Move>, key: string)
    requires key in RunMoves(Start(hash, initial), moves).file.roots
    ensures var s := RunMoves(Start(hash, initial), moves);
            && (key in initial.roots ==> initial.roots[key].sequence <= s.file.roots[key].sequence)
            && (forall a <- s.attempts :: a.key == key ==> a.sequence <= s.file.roots[key].sequence)
            && ((key in initial.roots && s.file.roots[key].sequence == initial.roots[key].sequence)
                || exists a <- s.attempts :: a.key == key && a.sequence == s.file.roots[key].sequence)
  {
    StartIsOk(hash, initial);
    MovesKeep(initial.roots, Start(hash, initial), moves);
    hide Start, RunMoves, ThreadOk, InSequence, Covers;
    var s := RunMoves(Start(hash, initial), moves);
    forall a <- s.attempts | a.key == key
      ensures a.sequence <= s.file.roots[key].sequence
    {
      assert Below(s.file.roots, a);
    }
    assert Attained(initial.roots, s.attempts, key, s.file.roots[key].sequence);
  }

  /** One step changes at most the acting thread's root, never lowers it, and never swaps a digest at the same sequence. */
  lemma StepTouchesOneRoot(s: System, m: Move, key: string)
    requires key in s.file.roots
    ensures var s' := Next(s, m);
            && key in s'.file.roots && s.file.roots[key].sequence <= s'.file.roots[key].sequence
            && (s'.file.roots[key].sequence == s.file.roots[key].sequence && s.file.roots[key].digest.Some? ==> s'.file.roots[key] == s.file.roots[key])
            && (s'.file.roots[key] != s.file.roots[key] ==>
                  && m.RecordAndAnswer? && m.id in s.threads && key == KeyOf(s.threads[m.id].call)
                  && s'.file.roots[key].sequence == s.threads[m.id].phase.payload.feed.sequence)
  {
    hide VerifyLifecycleEnvelope, EvaluateReceiptLifecycle, Digits, DocumentSize, Readable, IsDigest;
  }

  /**
   However evaluations of one root interleave, the answers given as CURRENT accept feeds in
   nondecreasing sequence, never two different feeds at one sequence, and never below the
   sequence stored when the answer was recorded.
   */
  lemma CurrentAnswersAreMonotone(hash: string -> string, initial: File, moves: seq<Move>, i: nat, j: nat)
    requires i < j < |RunMoves(Start(hash, initial), moves).answers|
    requires var answers := RunMoves(Start(hash, initial), moves).answers;
             answers[i].evaluation.state == CURRENT && answers[j].evaluation.state == CURRENT && answers[i].key == answers[j].key
    ensures var a, b := RunMoves(Start(hash, initial), moves).answers[i], RunMoves(Start(hash, initial), moves).answers[j];
            && a.evaluation.feedSequence <= b.evaluation.feedSequence
            && (a.evaluation.feedSequence == b.evaluation.feedSequence ==> a.digest == b.digest)
  {
    StartIsOk(hash, initial);
    MovesKeep(initial.roots, Start(hash, initial), moves);
    hide Start, RunMoves, ThreadOk, Covers, Below, Attained;
    var s := RunMoves(Start(hash, initial), moves);
    assert s.answers[i] in s.answers && s.answers[j] in s.answers;
    assert InSequence(s.answers[i], s.answers[j]);
  }

  /** An answer of CURRENT was not below the stored sequence at its recording step, and is what the store then holds. */
  lemma CurrentIsRecorded(hash: string -> string, initial: File, moves: seq<Move>, id: nat)
    requires var s := RunMoves(Start(hash, initial), moves);
             id in s.threads && |Next(s, RecordAndAnswer(id)).answers| > |s.answers|
             && Next(s, RecordAndAnswer(id)).answers[|s.answers|].evaluation.state == CURRENT
    ensures var s := RunMoves(Start(hash, initial), moves);
            var s' := Next(s, RecordAndAnswer(id));
            var answer := s'.answers[|s.answers|];
            && (answer.key in s.file.roots ==> s.file.roots[answer.key].sequence <= answer.evaluation.feedSequence)
            && answer.key in s'.file.roots && s'.file.roots[answer.key] == Entry(answer.evaluation.feedSequence, Some(answer.digest))
  {
    StartIsOk(hash, initial);
    MovesKeep(initial.roots, Start(hash, initial), moves);
    hide Start, RunMoves, InSequence, Covers, Below, Attained;
    var s := RunMoves(Start(hash, initial), moves);
    assert ThreadOk(s.threads[id]);
    if s.threads[id].phase.Judged? { EvaluationSequence(s.threads[id]); }
  }

  // ----- Staying readable ----------------------------------------------------------------------------------

  /** The step records an entry for which the file has no room. */
  ghost predicate Overflows(s: System, m: Move) {
    && m.RecordAndAnswer? && m.id in s.threads && s.threads[m.id].phase.Judged?
    && var t := s.threads[m.id];
    && t.phase.evaluation.feedSequence >= t.phase.minimum
    && RecordOverflows(s.file, KeyOf(t.call), t.phase.payload.feed.sequence, s.hash(t.phase.payload.text))
  }

  /** The record is accepted, something is written, and a hundred-and-first root or the length is too much. */
  ghost predicate RecordOverflows(f: File, key: string, sequence: int, digest: string) {
    && RecordIn(f, key, sequence, digest).Ok? && !IsRecorded(f, key, sequence, digest)
    && !HasRoom(f, key, sequence, digest)
  }

  lemma OneStepReadable(s: System, m: Move)
    ensures !Readable(s.file) ==> Next(s, m).file == s.file
    ensures Readable(s.file) ==> (Readable(Next(s, m).file) <==> !Overflows(s, m))
  {
    hide VerifyLifecycleEnvelope, EvaluateReceiptLifecycle, HasRoom, IsRecorded, Readable, IsDigest, IsAttempt;
    if m.RecordAndAnswer? && m.id in s.threads && s.threads[m.id].phase.Judged? {
      var t := s.threads[m.id];
      var key, sequence, digest := KeyOf(t.call), t.phase.payload.feed.sequence, s.hash(t.phase.payload.text);
      if RecordIn(s.file, key, sequence, digest).Ok? { RecordStaysReadable(s.file, key, sequence, digest); }
    }
  }

  /** An unreadable file stays as it is, whatever is tried. */
  lemma {:induction false} UnreadableIsFinal(s: System, moves: seq<Move>)
    requires !Readable(s.file)
    ensures RunMoves(s, moves).file == s.file
    decreases |moves|
  {
    hide Next, Overflows, Readable;
    if moves != [] {
      OneStepReadable(s, moves[0]);
      UnreadableIsFinal(Next(s, moves[0]), moves[1..]);
    }
  }

  /** Some step of the run overflows. */
  ghost predicate RunOverflows(s: System, moves: seq<Move>)
    decreases |moves|
  {
    moves != [] && (Overflows(s, moves[0]) || RunOverflows(Next(s, moves[0]), moves[1..]))
  }

  /** Over any run a readable file stays readable exactly when no step records an entry there is no room for. */
  lemma {:induction false} ReadableRuns(s: System, moves: seq<Move>)
    requires Readable(s.file)
    ensures Readable(RunMoves(s, moves).file) <==> !RunOverflows(s, moves)
    decreases |moves|
  {
    hide Next, Overflows, Readable;
    if moves != [] {
      OneStepReadable(s, moves[0]);
      if Overflows(s, moves[0]) {
        UnreadableIsFinal(Next(s, moves[0]), moves[1..]);
      } else {
        ReadableRuns(Next(s, moves[0]), moves[1..]);
      }
    }
  }

  // ----- A hundred modest roots ----------------------------------------------------------------------------

  /** The call is for one of the given roots, and its feed's sequence has at most 498 digits. */
  predicate IsModestCall(c: Call, keys: set<string>) {
    KeyOf(c) in keys && Digits(c.envelope.payload.feed.sequence) <= MODEST_DIGITS
  }

  predicate PayloadOf(t: Thread, payload: Payload) { t.phase.payload == payload }

  ghost predicate ModestSystem(s: System, keys: set<string>) {
    && Readable(s.file) && s.file.roots.Keys <= keys
    && AllModest(s.file.roots, MODEST_DIGITS)
    && forall id <- s.threads.Keys ::
         IsModestCall(s.threads[id].call, keys) && PayloadOf(s.threads[id], s.threads[id].call.envelope.payload)
  }

  lemma DigestIsModest(digest: string)
    requires IsDigest(digest)
    ensures TextSize(digest) <= 64
  {
    PlainText(digest);
  }

  lemma ModestRecord(f: File, keys: set<string>, key: string, sequence: int, digest: string)
    requires Readable(f) && f.roots.Keys <= keys && |keys| <= MAX_ROOTS && AllModest(f.roots, MODEST_DIGITS)
    requires key in keys && TextSize(key) <= 43 && Digits(sequence) <= MODEST_DIGITS
    requires RecordIn(f, key, sequence, digest).Ok?
    ensures var after := RecordIn(f, key, sequence, digest).value;
            Readable(after) && after.roots.Keys <= keys && AllModest(after.roots, MODEST_DIGITS)
  {
    var e := Entry(sequence, Some(digest));
    var after := f.roots[key := e];
    DigestIsModest(digest);
    RecordStaysReadable(f, key, sequence, digest);
    hide Digits, DocumentSize, TextSize, Readable;
    assert after.Keys <= keys && |after| == |after.Keys|;
    MapSums.SubsetSize(after.Keys, keys);
    assert forall k <- after :: IsModest(k, after[k], MODEST_DIGITS);
    ModestRootsFit(after);
    OneMoreRoot(f.roots, key, e);
  }

  lemma ModestStep(s: System, m: Move, keys: set<string>)
    requires ModestSystem(s, keys) && |keys| <= MAX_ROOTS && (forall k <- keys :: TextSize(k) <= 43)
    requires m.Begin? ==> IsModestCall(m.call, keys)
    ensures ModestSystem(Next(s, m), keys)
  {
    hide EvaluateReceiptLifecycle, Digits, TextSize, Readable, AllModest, RecordIn, IsAttempt;
    match m
    case Begin(id, call) =>
    case ReadAndJudge(id) =>
    case RecordAndAnswer(id) =>
      if id in s.threads && s.threads[id].phase.Judged? {
        var t := s.threads[id];
        var key, sequence, digest := KeyOf(t.call), t.phase.payload.feed.sequence, s.hash(t.phase.payload.text);
        if RecordIn(s.file, key, sequence, digest).Ok? { ModestRecord(s.file, keys, key, sequence, digest); }
      }
  }

  lemma {:induction false} ModestRun(s: System, moves: seq<Move>, keys: set<string>)
    requires ModestSystem(s, keys) && |keys| <= MAX_ROOTS && (forall k <- keys :: TextSize(k) <= 43)
    requires forall m <- moves :: m.Begin? ==> IsModestCall(m.call, keys)
    ensures ModestSystem(RunMoves(s, moves), keys)
    decreases |moves|
  {
    hide ModestSystem, Next, IsModestCall, TextSize;
    if moves != [] {
      assert moves[0] in moves && forall m <- moves[1..] :: m in moves;
      ModestStep(s, moves[0], keys);
      ModestRun(Next(s, moves[0]), moves[1..], keys);
    }
  }

  /**
   A readable file of modest entries that meets no more than a hundred roots, with names no longer than a
   thumbprint and sequences of at most 498 digits, is readable after every run.
   */
  lemma ModestRootsStayReadable(hash: string -> string, initial: File, moves: seq<Move>, keys: set<string>)
    requires Readable(initial) && AllModest(initial.roots, MODEST_DIGITS) && initial.roots.Keys <= keys
    requires |keys| <= MAX_ROOTS && forall k <- keys :: TextSize(k) <= 43
    requires forall m <- moves :: m.Begin? ==> IsModestCall(m.call, keys)
    ensures Readable(RunMoves(Start(hash, initial), moves).file)
  {
    hide AllModest, IsModestCall, TextSize, Readable, RunMoves;
    ModestRun(Start(hash, initial), moves, keys);
  }
}
