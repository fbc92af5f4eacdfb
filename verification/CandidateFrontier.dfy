/**
 * The candidate frontier of a project: triggers advance it as submissions are accepted and dispositions become stable.
 * The domain code has a plain loop for the same watermark.
 */
module CandidateFrontier {
  import opened Prelude

  datatype Frontier = Frontier(submissions: set<nat>, dispositions: set<nat>, lastAccepted: nat, reconciledThrough: nat)

  datatype Error =
    | SequenceNotPositive | DuplicateSubmission | NotNextSequence
    | UnknownSubmission | DuplicateDisposition
    | SkipsSubmission | CrossesUnstableGap

  const INITIAL := Frontier({}, {}, 0, 0)

  // ----- the simple specification -----

  /** `w` is where the unbroken run of stable sequences from one ends, among the accepted ones. */
  ghost predicate IsWatermark(lastAccepted: nat, stable: set<nat>, w: nat) {
    && w <= lastAccepted
    && (forall k: nat :: 1 <= k <= w ==> k in stable)
    && (w < lastAccepted ==> w + 1 !in stable)
  }

  lemma WatermarkIsUnique(lastAccepted: nat, stable: set<nat>, v: nat, w: nat)
    requires IsWatermark(lastAccepted, stable, v) && IsWatermark(lastAccepted, stable, w)
    ensures v == w
  {
    assert v < w ==> v + 1 in stable;
    assert w < v ==> w + 1 in stable;
  }

  /** The loop of the domain code. */
  method ContiguousStableDispositionWatermark(lastAccepted: nat, stableSequences: set<nat>) returns (watermark: nat)
    ensures IsWatermark(lastAccepted, stableSequences, watermark)
  {
    watermark := 0;
    var sequence := 1;
    while sequence <= lastAccepted
      invariant 1 <= sequence <= lastAccepted + 1 && watermark == sequence - 1
      invariant forall k: nat :: 1 <= k <= watermark ==> k in stableSequences
    {
      if sequence !in stableSequences { break; }
      watermark := sequence;
      sequence := sequence + 1;
    }
  }

  // ----- counting -----

  function Between(s: set<nat>, low: nat, high: nat): set<nat> {
    set k | k in s && low < k <= high
  }

  /** The guard's test: as many rows as the interval is wide means that none is missing. */
  lemma {:induction false} CountMeansNoGap(s: set<nat>, low: nat, high: nat)
    requires low <= high
    ensures |Between(s, low, high)| <= high - low
    ensures |Between(s, low, high)| == high - low <==> forall k: nat :: low < k <= high ==> k in s
    decreases high - low
  {
    if low == high {
      assert Between(s, low, high) == {};
    } else {
      CountMeansNoGap(s, low, high - 1);
      var rest := Between(s, low, high - 1);
      assert Between(s, low, high) == if high in s then rest + {high} else rest;
    }
  }

  // ----- the triggers, as functions -----

  /** The update trigger: no frontier moves back, none skips a submission, none crosses an unstable gap. */
  function Guard(f: Frontier, accepted: nat, reconciled: nat): Option<Error> {
    if accepted > f.lastAccepted && |Between(f.submissions, f.lastAccepted, accepted)| != accepted - f.lastAccepted then
      Some(SkipsSubmission)
    else if reconciled > f.reconciledThrough && |Between(f.dispositions, f.reconciledThrough, reconciled)| != reconciled - f.reconciledThrough then
      Some(CrossesUnstableGap)
    else None
  }

  /** Inserting a submission fires the trigger that advances the accepted frontier. */
  function Accept(f: Frontier, sequence: nat): Result<Frontier, Error> {
    if sequence == 0 then Err(SequenceNotPositive)
    else if sequence in f.submissions then Err(DuplicateSubmission)
    else if sequence != f.lastAccepted + 1 then Err(NotNextSequence)
    else
      var inserted := f.(submissions := f.submissions + {sequence});
      match Guard(inserted, sequence, f.reconciledThrough)
      case Some(e) => Err(e)
      case None => Ok(inserted.(lastAccepted := sequence))
  }

  /** `min(submission_sequence)` over the accepted submissions above `from` without a disposition. */
  function FirstUnstable(f: Frontier, from: nat): (r: Option<nat>)
    ensures r.Some? ==> from < r.value <= f.lastAccepted && r.value in f.submissions && r.value !in f.dispositions
    ensures forall k: nat :: from < k <= f.lastAccepted && k in f.submissions && k !in f.dispositions ==> r.Some? && r.value <= k
    decreases if from <= f.lastAccepted then f.lastAccepted - from else 0
  {
    if from >= f.lastAccepted then None
    else if from + 1 in f.submissions && from + 1 !in f.dispositions then Some(from + 1)
    else FirstUnstable(f, from + 1)
  }

  function NextWatermark(f: Frontier): int {
    match FirstUnstable(f, f.reconciledThrough)
    case Some(first) => first - 1
    case None => f.lastAccepted
  }

  function Refresh(f: Frontier): Result<Frontier, Error> {
    var next := NextWatermark(f);
    if next > f.reconciledThrough then
      match Guard(f, f.lastAccepted, next)
      case Some(e) => Err(e)
      case None => Ok(f.(reconciledThrough := next))
    else Ok(f)
  }

  /** Inserting a stable disposition fires the trigger that refreshes the reconciled frontier. */
  function Dispose(f: Frontier, sequence: nat): Result<Frontier, Error> {
    if sequence !in f.submissions then Err(UnknownSubmission)
    else if sequence in f.dispositions then Err(DuplicateDisposition)
    else Refresh(f.(dispositions := f.dispositions + {sequence}))
  }

  // ----- the invariant -----

  ghost predicate Inv(f: Frontier) {
    && (forall k: nat :: k in f.submissions <==> 1 <= k <= f.lastAccepted)
    && f.dispositions <= f.submissions
    && IsWatermark(f.lastAccepted, f.dispositions, f.reconciledThrough)
  }

  /** Accepting never trips a guard, and fails exactly when the sequence is not the next one. */
  lemma AcceptMeans(f: Frontier, sequence: nat)
    requires Inv(f)
    ensures Accept(f, sequence).Ok? <==> sequence == f.lastAccepted + 1
    ensures Accept(f, sequence) != Err(SkipsSubmission) && Accept(f, sequence) != Err(CrossesUnstableGap)
    ensures Accept(f, sequence).Ok? ==> Inv(Accept(f, sequence).value)
  {
    if sequence == f.lastAccepted + 1 {
      CountMeansNoGap(f.submissions + {sequence}, f.lastAccepted, sequence);
    }
  }

  /** The incremental refresh lands exactly on the watermark, and its guard never rejects it. */
  lemma RefreshFindsWatermark(f: Frontier)
    requires forall k: nat :: k in f.submissions <==> 1 <= k <= f.lastAccepted
    requires f.reconciledThrough <= f.lastAccepted
    requires forall k: nat :: 1 <= k <= f.reconciledThrough ==> k in f.dispositions
    ensures Refresh(f).Ok? && IsWatermark(f.lastAccepted, f.dispositions, Refresh(f).value.reconciledThrough)
    ensures Refresh(f).value == f.(reconciledThrough := Refresh(f).value.reconciledThrough)
  {
    var next := NextWatermark(f);
    if next > f.reconciledThrough {
      CountMeansNoGap(f.dispositions, f.reconciledThrough, next);
    }
  }

  lemma DisposeMeans(f: Frontier, sequence: nat)
    requires Inv(f)
    ensures Dispose(f, sequence).Ok? <==> 1 <= sequence <= f.lastAccepted && sequence !in f.dispositions
    ensures Dispose(f, sequence) != Err(CrossesUnstableGap) && Dispose(f, sequence) != Err(SkipsSubmission)
    ensures Dispose(f, sequence).Ok? ==> Inv(Dispose(f, sequence).value) && f.reconciledThrough <= Dispose(f, sequence).value.reconciledThrough
  {
    if sequence in f.submissions && sequence !in f.dispositions {
      RefreshFindsWatermark(f.(dispositions := f.dispositions + {sequence}));
    }
  }

  // ----- runs -----

  datatype Step = DoAccept(sequence: nat) | DoDispose(sequence: nat)

  function Apply(f: Frontier, step: Step): Frontier {
    match step
    case DoAccept(k) => (match Accept(f, k) case Ok(g) => g case Err(_) => f)
    case DoDispose(k) => (match Dispose(f, k) case Ok(g) => g case Err(_) => f)
  }

  function Run(f: Frontier, steps: seq<Step>): Frontier
    decreases |steps|
  {
    if steps == [] then f else Run(Apply(f, steps[0]), steps[1..])
  }

  /** After any run, in any order, the maintained frontier is the watermark of what has been accepted and disposed. */
  lemma {:induction false} RunKeepsWatermark(f: Frontier, steps: seq<Step>)
    requires Inv(f)
    ensures Inv(Run(f, steps)) && f.reconciledThrough <= Run(f, steps).reconciledThrough
    decreases |steps|
  {
    if steps != [] {
      match steps[0] {
        case DoAccept(k) => AcceptMeans(f, k);
        case DoDispose(k) => DisposeMeans(f, k);
      }
      RunKeepsWatermark(Apply(f, steps[0]), steps[1..]);
    }
  }

  /** So two histories that accepted and disposed the same sequences agree on the frontier, whatever their order. */
  lemma OrderDoesNotMatter(a: seq<Step>, b: seq<Step>)
    requires Run(INITIAL, a).dispositions == Run(INITIAL, b).dispositions
    requires Run(INITIAL, a).submissions == Run(INITIAL, b).submissions
    ensures Run(INITIAL, a) == Run(INITIAL, b)
  {
    RunKeepsWatermark(INITIAL, a);
    RunKeepsWatermark(INITIAL, b);
    var f, g := Run(INITIAL, a), Run(INITIAL, b);
    assert f.lastAccepted == g.lastAccepted by {
      assert f.lastAccepted > 0 ==> f.lastAccepted in g.submissions;
      assert g.lastAccepted > 0 ==> g.lastAccepted in f.submissions;
    }
    WatermarkIsUnique(f.lastAccepted, f.dispositions, f.reconciledThrough, g.reconciledThrough);
  }
}
