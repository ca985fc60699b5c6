/** The file ingestion of the upload dialog: the admission check on selected files, the per-file
    pipeline that steps an entry of the file list through uploading, processing and completion, and
    the list itself, which is rewritten by id (`prev.map(...)`) or pruned by id (`prev.filter(...)`).
    Timers are abstracted away: one loop iteration is one update of the list. Random ids and the
    point at which the pipeline is interrupted by an exception are parameters. */
module FileUpload {
  import opened Wrappers
  import Seqs
  import opened Decimal

  // ---------------------------------------------------------------------------
  // Admission
  // ---------------------------------------------------------------------------

  /** The MIME types the dialog accepts. */
  const ValidTypes: seq<string> := ["application/pdf", "text/plain", "application/json"]

  /** The size ceiling, 50 MiB in bytes. */
  const MaxSize: nat := 50 * 1024 * 1024

  /** A file as the browser's file picker or a drop hands it over. */
  datatype SelectedFile = SelectedFile(name: string, size: nat, mimeType: string)

  /** Why a selected file was dropped (each reason has its own notification). */
  datatype Rejection = InvalidType | TooLarge

  /** The admission check of `handleFileSelect`: the type is tested first, then the size. */
  function Screen(f: SelectedFile): (r: Option<Rejection>)
    ensures r == Some(InvalidType) <==> f.mimeType !in ValidTypes
    ensures r == Some(TooLarge) <==> f.mimeType in ValidTypes && f.size > MaxSize
    ensures r == None <==> f.mimeType in ValidTypes && f.size <= MaxSize
  {
    if f.mimeType !in ValidTypes then Some(InvalidType)
    else if f.size > MaxSize then Some(TooLarge)
    else None
  }

  predicate Admissible(f: SelectedFile) {
    Screen(f) == None
  }

  /** `validFiles`: the admissible selected files, in the order they were selected. */
  function AdmitFiles(selected: seq<SelectedFile>): (r: seq<SelectedFile>)
    ensures Seqs.IsSubsequence(r, selected)
    ensures forall i :: 0 <= i < |r| ==> r[i].mimeType in ValidTypes && r[i].size <= MaxSize
    ensures forall i :: 0 <= i < |selected| && Admissible(selected[i]) ==> selected[i] in r
    ensures |r| == Seqs.CountIf(selected, Admissible)
  {
    Seqs.Filter(selected, Admissible)
  }

  /** The limit is inclusive: a file of exactly 50 MiB with an accepted type is admitted, one byte
      more is not. */
  lemma SizeLimitInclusive(name: string, mimeType: string)
    requires mimeType in ValidTypes
    ensures Admissible(SelectedFile(name, 52428800, mimeType))
    ensures Screen(SelectedFile(name, 52428801, mimeType)) == Some(TooLarge)
  {
  }

  /** A file of any other type, such as `image/png`, is rejected for its type whatever its size. */
  lemma OtherTypesRejected(name: string, size: nat)
    ensures Screen(SelectedFile(name, size, "image/png")) == Some(InvalidType)
    ensures Screen(SelectedFile(name, size, "application/pdf ")) == Some(InvalidType)
  {
  }

  // ---------------------------------------------------------------------------
  // The file list and its id-keyed updates
  // ---------------------------------------------------------------------------

  datatype Status = Uploading | Processing | Completed | Error

  /** An entry of the dialog's file list (`UploadedFile`); `chunks` and `error` are the optional fields. */
  datatype UploadedFile = UploadedFile(
    id: string, name: string, size: nat, mimeType: string,
    status: Status, progress: int, chunks: Option<nat>, error: Option<string>)

  /** One `setFiles(prev => prev.map(f => f.id === fileId ? { ...f, ... } : f))` call, by the fields it sets. */
  datatype Update =
    | SetProgress(progress: int)
    | BeginProcessing
    | SetChunking(progress: int, chunks: nat)
    | Finish(chunks: nat)
    | Fail(message: string)

  /** The object spread of one update: the listed fields are replaced, the others, including the
      file's identity, are kept. */
  function Apply(f: UploadedFile, u: Update): (g: UploadedFile)
    ensures g.id == f.id && g.name == f.name && g.size == f.size && g.mimeType == f.mimeType
  {
    match u
    case SetProgress(p) => f.(progress := p)
    case BeginProcessing => f.(status := Processing, progress := 0)
    case SetChunking(p, c) => f.(progress := p, chunks := Some(c))
    case Finish(c) => f.(status := Completed, progress := 100, chunks := Some(c))
    case Fail(m) => f.(status := Error, error := Some(m))
  }

  /** `prev.map(f => f.id === id ? update(f) : f)`: every entry with the id is updated, every other
      entry stays as it was, and the list keeps its length and order. */
  function UpdateById(fs: seq<UploadedFile>, id: string, u: Update): (r: seq<UploadedFile>)
    ensures |r| == |fs|
    ensures forall i {:trigger r[i]} :: 0 <= i < |fs| ==> r[i] == if fs[i].id == id then Apply(fs[i], u) else fs[i]
  {
    if fs == [] then []
    else [if fs[0].id == id then Apply(fs[0], u) else fs[0]] + UpdateById(fs[1..], id, u)
  }

  /** An entry after a sequence of updates, applied in order. */
  function ApplyAll(f: UploadedFile, us: seq<Update>): (g: UploadedFile)
    ensures g.id == f.id && g.name == f.name && g.size == f.size && g.mimeType == f.mimeType
  {
    if us == [] then f else Apply(ApplyAll(f, us[..|us| - 1]), us[|us| - 1])
  }

  /** The list after a sequence of id-keyed updates: entries with the id have had all of them
      applied, all others are untouched. */
  function ApplyTrace(fs: seq<UploadedFile>, id: string, us: seq<Update>): (r: seq<UploadedFile>)
    ensures |r| == |fs|
    ensures forall i {:trigger r[i]} :: 0 <= i < |fs| ==> r[i] == if fs[i].id == id then ApplyAll(fs[i], us) else fs[i]
  {
    if us == [] then fs else UpdateById(ApplyTrace(fs, id, us[..|us| - 1]), id, us[|us| - 1])
  }

  /** Issuing one more update extends the trace by it. */
  lemma ApplyTraceSnoc(fs: seq<UploadedFile>, id: string, us: seq<Update>, u: Update)
    ensures ApplyTrace(fs, id, us + [u]) == UpdateById(ApplyTrace(fs, id, us), id, u)
  {
    assert (us + [u])[..|us|] == us;
  }

  /** `removeFile(id)`: `prev.filter(f => f.id !== id)`. */
  function RemoveById(fs: seq<UploadedFile>, id: string): (r: seq<UploadedFile>)
    ensures Seqs.IsSubsequence(r, fs)
    ensures forall i :: 0 <= i < |r| ==> r[i].id != id
    ensures forall i :: 0 <= i < |fs| && fs[i].id != id ==> fs[i] in r
    ensures |r| == |fs| - Seqs.CountIf(fs, (f: UploadedFile) => f.id == id)
  {
    CountComplement(fs, id);
    Seqs.Filter(fs, (f: UploadedFile) => f.id != id)
  }

  /** Entries with the id and entries without it add up to the whole list. */
  lemma {:induction false} CountComplement(fs: seq<UploadedFile>, id: string)
    ensures Seqs.CountIf(fs, (f: UploadedFile) => f.id != id) + Seqs.CountIf(fs, (f: UploadedFile) => f.id == id) == |fs|
  {
    if fs != [] {
      CountComplement(fs[1..], id);
    }
  }

  /** Removing an id that is not in the list leaves the list as it is. */
  lemma RemoveAbsentId(fs: seq<UploadedFile>, id: string)
    requires forall i :: 0 <= i < |fs| ==> fs[i].id != id
    ensures RemoveById(fs, id) == fs
  {
    Seqs.FilterKeepsAll(fs, (f: UploadedFile) => f.id != id);
  }

  // ---------------------------------------------------------------------------
  // The processing pipeline of one file
  // ---------------------------------------------------------------------------

  /** Characters per chunk in the chunk estimate. */
  const ChunkSize: nat := 1000

  /** `Math.ceil(a / b)` on naturals. */
  function CeilDiv(a: nat, b: nat): nat
    requires b > 0
  {
    (a + b - 1) / b
  }

  /** `CeilDiv(a, b)` is the least number of `b`-sized pieces that cover `a`. */
  lemma CeilDivBounds(a: nat, b: nat)
    requires b > 0
    ensures CeilDiv(a, b) * b >= a
    ensures CeilDiv(a, b) > 0 ==> (CeilDiv(a, b) - 1) * b < a
  {
    var q := CeilDiv(a, b);
    assert (a + b - 1) == q * b + (a + b - 1) % b;
  }

  /** `estimatedChunks`: the number of 1000-byte chunks needed to hold the file. */
  function EstimatedChunks(size: nat): nat {
    CeilDiv(size, ChunkSize)
  }

  /** The chunk count shown at `progress` percent of the processing stage. */
  function ChunksAt(estimated: nat, progress: nat): nat {
    CeilDiv(estimated * progress, 100)
  }

  /** Ceiling division is monotone in the dividend. */
  lemma CeilDivMonotone(a: nat, a': nat, b: nat)
    requires b > 0 && a <= a'
    ensures CeilDiv(a, b) <= CeilDiv(a', b)
  {
    var q, q' := CeilDiv(a, b), CeilDiv(a', b);
    CeilDivBounds(a, b);
    CeilDivBounds(a', b);
    if q > q' {
      assert (q - 1) * b >= q' * b by {
        assert q - 1 >= q';
        MulMonotone(q', q - 1, b);
      }
    }
  }

  lemma MulMonotone(x: nat, y: nat, b: nat)
    requires x <= y
    ensures x * b <= y * b
  {
  }

  /** The shown chunk count never decreases as processing advances, never exceeds the estimate,
      and reaches it at 100 percent. */
  lemma ChunksAtBounds(estimated: nat, p: nat, q: nat)
    requires p <= q <= 100
    ensures ChunksAt(estimated, p) <= ChunksAt(estimated, q) <= estimated
    ensures ChunksAt(estimated, 100) == estimated
  {
    MulMonotone(p, q, estimated);
    assert estimated * p <= estimated * q;
    CeilDivMonotone(estimated * p, estimated * q, 100);
    MulMonotone(q, 100, estimated);
    CeilDivMonotone(estimated * q, estimated * 100, 100);
  }

  /** The number of updates `processFile` issues when nothing goes wrong: eleven upload steps,
      the switch to processing, six chunking steps and the completion. */
  const PipelineLength: nat := 19

  /** The `j`-th update `processFile` issues for a file when nothing goes wrong. */
  function PlanStep(file: SelectedFile, j: nat): Update
    requires j < PipelineLength
  {
    var e := EstimatedChunks(file.size);
    if j < 11 then SetProgress(10 * j)
    else if j == 11 then BeginProcessing
    else if j < 18 then SetChunking(20 * (j - 12), ChunksAt(e, 20 * (j - 12)))
    else Finish(e)
  }

  /** The upload updates report the progress reached. */
  lemma UploadStep(file: SelectedFile, j: nat, progress: int)
    requires j < 11 && progress == 10 * j
    ensures PlanStep(file, j) == SetProgress(progress)
  {
  }

  /** The chunking updates report the progress reached and the chunks stored by then. */
  lemma ChunkingStep(file: SelectedFile, j: nat, progress: nat)
    requires 12 <= j < 18 && progress == 20 * (j - 12)
    ensures PlanStep(file, j) == SetChunking(progress, ChunksAt(EstimatedChunks(file.size), progress))
  {
  }

  /** The first `k` updates of the pipeline, in order. */
  function Plan(file: SelectedFile, k: nat): (us: seq<Update>)
    requires k <= PipelineLength
    ensures |us| == k
    ensures forall j :: 0 <= j < k ==> us[j] == PlanStep(file, j)
  {
    if k == 0 then [] else Plan(file, k - 1) + [PlanStep(file, k - 1)]
  }

  /** The message an interrupted entry shows. */
  const FailureMessage: string := "Failed to process file"

  /** The updates actually issued. `fault == Some(k)` with `k <= 19` means an exception is raised
      after `k` updates have been issued (`k == 19`: after completion, while notifying); the handler
      then marks the entry as failed. Any other `fault` means the pipeline runs to its end. */
  function Trace(file: SelectedFile, fault: Option<nat>): seq<Update> {
    if fault.Some? && fault.value <= PipelineLength then Plan(file, fault.value) + [Fail(FailureMessage)]
    else Plan(file, PipelineLength)
  }

  /** The entry `processFile` appends before its first update. */
  function Initial(file: SelectedFile, id: string): UploadedFile {
    UploadedFile(id, file.name, file.size, file.mimeType, Uploading, 0, None, None)
  }

  /** The new entry after the first `k` updates of an uninterrupted pipeline. */
  function StateAfter(file: SelectedFile, id: string, k: nat): UploadedFile
    requires k <= PipelineLength
  {
    ApplyAll(Initial(file, id), Plan(file, k))
  }

  /** The stages the new entry goes through: during upload the status stays `uploading` and the
      progress is 0, 10, ..., 100; entering processing sets `processing` with progress 0; during
      processing the progress is 0, 20, ..., 100 with the matching chunk count; the last update
      completes it at 100 percent with the full estimate. No update sets an error. */
  lemma {:induction false} Stages(file: SelectedFile, id: string, k: nat)
    requires k <= PipelineLength
    ensures var st, e := StateAfter(file, id, k), EstimatedChunks(file.size);
      && st.error == None
      && (k == 0 ==> st == Initial(file, id))
      && (1 <= k <= 11 ==> st.status == Uploading && st.progress == 10 * (k - 1) && st.chunks == None)
      && (k == 12 ==> st.status == Processing && st.progress == 0 && st.chunks == None)
      && (13 <= k <= 18 ==> st.status == Processing && st.progress == 20 * (k - 13)
                            && st.chunks == Some(ChunksAt(e, 20 * (k - 13))))
      && (k == 19 ==> st.status == Completed && st.progress == 100 && st.chunks == Some(e))
  {
    if k > 0 {
      Stages(file, id, k - 1);
      var us := Plan(file, k);
      assert us[..k - 1] == Plan(file, k - 1);
      assert StateAfter(file, id, k) == Apply(StateAfter(file, id, k - 1), PlanStep(file, k - 1));
    }
  }

  /** Upload progress strictly increases from update to update and ends at 100. */
  lemma UploadProgressIncreasing(file: SelectedFile, id: string, j: nat, k: nat)
    requires 1 <= j < k <= 11
    ensures StateAfter(file, id, j).progress < StateAfter(file, id, k).progress
    ensures StateAfter(file, id, 11).progress == 100
  {
    Stages(file, id, j);
    Stages(file, id, k);
    Stages(file, id, 11);
  }

  /** During processing the chunk count never decreases and never exceeds the estimate. */
  lemma ChunksNonDecreasing(file: SelectedFile, id: string, j: nat, k: nat)
    requires 13 <= j <= k <= 18
    ensures var a, b := StateAfter(file, id, j).chunks, StateAfter(file, id, k).chunks;
      a.Some? && b.Some? && a.value <= b.value <= EstimatedChunks(file.size)
  {
    Stages(file, id, j);
    Stages(file, id, k);
    ChunksAtBounds(EstimatedChunks(file.size), 20 * (j - 13), 20 * (k - 13));
  }

  /** The final state of the new entry. */
  function FinalEntry(file: SelectedFile, id: string, fault: Option<nat>): UploadedFile {
    ApplyAll(Initial(file, id), Trace(file, fault))
  }

  /** Without an exception the entry ends completed at 100 percent with the estimated chunk count. */
  lemma CompletedOutcome(file: SelectedFile, id: string, fault: Option<nat>)
    requires fault.None? || fault.value > PipelineLength
    ensures FinalEntry(file, id, fault)
         == Initial(file, id).(status := Completed, progress := 100, chunks := Some(EstimatedChunks(file.size)))
  {
    Stages(file, id, PipelineLength);
  }

  /** A 10,000-byte text file ends completed, at 100 percent, with 10 chunks. */
  lemma TenThousandByteFile(name: string, id: string)
    ensures var f := FinalEntry(SelectedFile(name, 10000, "text/plain"), id, None);
      f.status == Completed && f.progress == 100 && f.chunks == Some(10)
  {
    CompletedOutcome(SelectedFile(name, 10000, "text/plain"), id, None);
  }

  /** After an exception the entry is in error with the failure message, and keeps the progress and
      chunk count of the last update that went through. */
  lemma FailedOutcome(file: SelectedFile, id: string, k: nat)
    requires k <= PipelineLength
    ensures var f, last := FinalEntry(file, id, Some(k)), StateAfter(file, id, k);
      f.status == Error && f.error == Some(FailureMessage)
      && f.progress == last.progress && f.chunks == last.chunks
      && StatusText(f) == FailureMessage
  {
    var t := Trace(file, Some(k));
    assert t[..|t| - 1] == Plan(file, k);
  }

  // ---------------------------------------------------------------------------
  // Status text
  // ---------------------------------------------------------------------------

  /** `getStatusText(file)`. An absent chunk count reads as 0 while processing; on completion it
      would print as `undefined`, which the pipeline never lets happen. A missing or empty error
      message reads as `Error`. */
  function StatusText(f: UploadedFile): (t: string)
    ensures f.status == Error && f.error.Some? && f.error.value != [] ==> t == f.error.value
    ensures f.status == Error && (f.error.None? || f.error.value == []) ==> t == "Error"
  {
    match f.status
    case Uploading => "Uploading..."
    case Processing => "Processing... (" + NatToString(f.chunks.GetOr(0)) + " chunks)"
    case Completed =>
      "Completed (" + (if f.chunks.Some? then NatToString(f.chunks.value) else "undefined") + " chunks stored)"
    case Error => if f.error.Some? && f.error.value != [] then f.error.value else "Error"
  }

  /** What the list shows for the new entry at each point of an uninterrupted pipeline: the upload
      message, then the chunk count reached so far (0 before the first chunking update), and at the
      end the full estimate, so `undefined` is never shown. */
  lemma PipelineTexts(file: SelectedFile, id: string, k: nat)
    requires k <= PipelineLength
    ensures var t, e := StatusText(StateAfter(file, id, k)), EstimatedChunks(file.size);
      && (k <= 11 ==> t == "Uploading...")
      && (k == 12 ==> t == "Processing... (0 chunks)")
      && (13 <= k <= 18 ==> t == "Processing... (" + NatToString(ChunksAt(e, 20 * (k - 13))) + " chunks)")
      && (k == 19 ==> t == "Completed (" + NatToString(e) + " chunks stored)")
  {
    Stages(file, id, k);
  }

  // ---------------------------------------------------------------------------
  // Several files
  // ---------------------------------------------------------------------------

  /** What the environment supplies for one processed file: its random id and where, if anywhere,
      an exception interrupts it. */
  datatype Run = Run(id: string, fault: Option<nat>)

  /** One file's processing: the entry it appends and the updates it then issues under that
      entry's id. */
  datatype Job = Job(entry: UploadedFile, trace: seq<Update>)

  /** The processing of `file` in the circumstances `run`. */
  function JobOf(file: SelectedFile, run: Run): Job {
    Job(Initial(file, run.id), Trace(file, run.fault))
  }

  /** The list after one job: its entry appended and its updates applied. */
  function ProcessStep(fs: seq<UploadedFile>, job: Job): (r: seq<UploadedFile>)
    ensures |r| == |fs| + 1
    ensures forall i {:trigger r[i]} :: 0 <= i < |fs| ==> SameFile(r[i], fs[i])
    ensures SameFile(r[|fs|], job.entry)
  {
    var start := fs + [job.entry];
    var r := ApplyTrace(start, job.entry.id, job.trace);
    assert forall i :: 0 <= i < |start| ==> SameFile(r[i], start[i]);
    r
  }

  /** Two entries for the same file under the same id, whatever their progress. */
  predicate SameFile(a: UploadedFile, b: UploadedFile) {
    a.id == b.id && a.name == b.name && a.size == b.size && a.mimeType == b.mimeType
  }

  /** The list after the jobs, one after the other. */
  function ProcessAll(fs: seq<UploadedFile>, jobs: seq<Job>): (r: seq<UploadedFile>)
    ensures |r| == |fs| + |jobs|
  {
    if jobs == [] then fs
    else ProcessStep(ProcessAll(fs, jobs[..|jobs| - 1]), jobs[|jobs| - 1])
  }

  /** One more job extends the fold by one step. */
  lemma ProcessAllSnoc(fs: seq<UploadedFile>, jobs: seq<Job>, i: nat)
    requires i < |jobs|
    ensures ProcessAll(fs, jobs[..i + 1]) == ProcessStep(ProcessAll(fs, jobs[..i]), jobs[i])
  {
    assert jobs[..i + 1][..i] == jobs[..i];
  }

  /** Entries already in the list keep their identity whatever is processed after them. */
  lemma {:induction false} ProcessAllKeeps(fs: seq<UploadedFile>, jobs: seq<Job>, i: nat)
    requires i < |fs|
    ensures SameFile(ProcessAll(fs, jobs)[i], fs[i])
    decreases |jobs|
  {
    if jobs != [] {
      var n := |jobs| - 1;
      var before := ProcessAll(fs, jobs[..n]);
      ProcessAllKeeps(fs, jobs[..n], i);
      assert SameFile(ProcessStep(before, jobs[n])[i], before[i]);
    }
  }

  /** Each job adds exactly one entry, in order: the `i`-th new entry carries the identity of the
      `i`-th job's entry. */
  lemma {:induction false} ProcessAllEntries(fs: seq<UploadedFile>, jobs: seq<Job>, i: nat)
    requires i < |jobs|
    ensures SameFile(ProcessAll(fs, jobs)[|fs| + i], jobs[i].entry)
    decreases |jobs|
  {
    var n := |jobs| - 1;
    var before := ProcessAll(fs, jobs[..n]);
    var after := ProcessStep(before, jobs[n]);
    if i < n {
      ProcessAllEntries(fs, jobs[..n], i);
      assert jobs[..n][i] == jobs[i];
      assert SameFile(after[|fs| + i], before[|fs| + i]);
    }
  }

  /** No entry of the list has the id. */
  predicate Fresh(fs: seq<UploadedFile>, id: string) {
    forall i :: 0 <= i < |fs| ==> fs[i].id != id
  }

  /** A job whose id is new to the list appends its outcome and leaves the rest alone. */
  lemma ProcessStepFresh(fs: seq<UploadedFile>, job: Job)
    requires Fresh(fs, job.entry.id)
    ensures ProcessStep(fs, job) == fs + [ApplyAll(job.entry, job.trace)]
  {
    var start := fs + [job.entry];
    var r := ApplyTrace(start, job.entry.id, job.trace);
    assert forall i :: 0 <= i < |fs| ==> start[i] == fs[i] && r[i] == fs[i];
  }

  /** Removing a freshly processed file undoes its processing: the list is back to what it was. */
  lemma RemoveUndoesProcess(fs: seq<UploadedFile>, job: Job)
    requires Fresh(fs, job.entry.id)
    ensures RemoveById(ProcessStep(fs, job), job.entry.id) == fs
  {
    var id := job.entry.id;
    var x := ApplyAll(job.entry, job.trace);
    var keep := (f: UploadedFile) => f.id != id;
    ProcessStepFresh(fs, job);
    Seqs.FilterAppend(fs, [x], keep);
    Seqs.FilterKeepsAll(fs, keep);
    Seqs.FilterDropsAll([x], keep);
    assert fs + [] == fs;
  }

  /** The final entry of each job, in order. */
  function Outcomes(jobs: seq<Job>): (r: seq<UploadedFile>)
    ensures |r| == |jobs|
    ensures forall i {:trigger r[i]} :: 0 <= i < |jobs| ==> r[i] == ApplyAll(jobs[i].entry, jobs[i].trace)
  {
    if jobs == [] then []
    else
      var n := |jobs| - 1;
      Outcomes(jobs[..n]) + [ApplyAll(jobs[n].entry, jobs[n].trace)]
  }

  /** Distinct ids, all new to the list. */
  predicate FreshIds(fs: seq<UploadedFile>, jobs: seq<Job>) {
    && (forall i :: 0 <= i < |jobs| ==> Fresh(fs, jobs[i].entry.id))
    && (forall i, j :: 0 <= i < j < |jobs| ==> jobs[i].entry.id != jobs[j].entry.id)
  }

  /** When the ids are distinct and new to the list, the jobs do not disturb one another: the list
      gains exactly one final entry per job, in order, and the old entries are unchanged. */
  lemma {:induction false} ProcessAllFresh(fs: seq<UploadedFile>, jobs: seq<Job>)
    requires FreshIds(fs, jobs)
    ensures ProcessAll(fs, jobs) == fs + Outcomes(jobs)
  {
    if jobs == [] {
      assert fs + [] == fs;
    } else {
      var n := |jobs| - 1;
      var jn := jobs[..n];
      assert FreshIds(fs, jn) by {
        assert forall i :: 0 <= i < n ==> jn[i] == jobs[i];
      }
      ProcessAllFresh(fs, jn);
      var before := ProcessAll(fs, jn);
      LastIdFresh(fs, jobs);
      ProcessStepFresh(before, jobs[n]);
      var last := ApplyAll(jobs[n].entry, jobs[n].trace);
      assert Outcomes(jobs) == Outcomes(jn) + [last];
      assert fs + Outcomes(jn) + [last] == fs + (Outcomes(jn) + [last]);
    }
  }

  /** The last job's id is new to the list the earlier jobs leave behind. */
  lemma LastIdFresh(fs: seq<UploadedFile>, jobs: seq<Job>)
    requires FreshIds(fs, jobs) && jobs != []
    ensures Fresh(fs + Outcomes(jobs[..|jobs| - 1]), jobs[|jobs| - 1].entry.id)
  {
    var n := |jobs| - 1;
    var jn := jobs[..n];
    var before := fs + Outcomes(jn);
    forall i | 0 <= i < |before| ensures before[i].id != jobs[n].entry.id {
      if i >= |fs| {
        var j := i - |fs|;
        assert before[i] == Outcomes(jn)[j];
        assert jn[j] == jobs[j];
      }
    }
  }

  /** The jobs for the admitted files, paired with their runs. */
  function Jobs(files: seq<SelectedFile>, runs: seq<Run>): (r: seq<Job>)
    requires |runs| == |files|
    ensures |r| == |files|
    ensures forall i {:trigger r[i]} :: 0 <= i < |files| ==> r[i] == JobOf(files[i], runs[i])
  {
    if files == [] then []
    else
      var n := |files| - 1;
      Jobs(files[..n], runs[..n]) + [JobOf(files[n], runs[n])]
  }

  /** Processing the admitted files: the `i`-th new entry is the `i`-th file under the `i`-th id,
      and the old entries keep their identity. */
  lemma ProcessFilesIdentity(fs: seq<UploadedFile>, files: seq<SelectedFile>, runs: seq<Run>, i: nat)
    requires |runs| == |files|
    ensures var r := ProcessAll(fs, Jobs(files, runs));
      && (i < |fs| ==> SameFile(r[i], fs[i]))
      && (i < |files| ==> SameFile(r[|fs| + i], Initial(files[i], runs[i].id)))
  {
    var jobs := Jobs(files, runs);
    if i < |fs| {
      ProcessAllKeeps(fs, jobs, i);
    }
    if i < |files| {
      ProcessAllEntries(fs, jobs, i);
      assert jobs[i].entry == Initial(files[i], runs[i].id);
    }
  }

  /** With distinct ids, all new to the list, the admitted files do not disturb one another: the
      old entries are unchanged and one outcome per file follows them, in order. */
  lemma ProcessFilesFresh(fs: seq<UploadedFile>, files: seq<SelectedFile>, runs: seq<Run>)
    requires |runs| == |files|
    requires forall k :: 0 <= k < |runs| ==> Fresh(fs, runs[k].id)
    requires forall k, l :: 0 <= k < l < |runs| ==> runs[k].id != runs[l].id
    ensures ProcessAll(fs, Jobs(files, runs)) == fs + Outcomes(Jobs(files, runs))
  {
    JobsFresh(fs, files, runs);
    ProcessAllFresh(fs, Jobs(files, runs));
  }

  /** The outcome of the `i`-th admitted file is its final entry under its own id and fault point. */
  lemma OutcomeOfFile(files: seq<SelectedFile>, runs: seq<Run>, i: nat)
    requires |runs| == |files| && i < |files|
    ensures Outcomes(Jobs(files, runs))[i] == FinalEntry(files[i], runs[i].id, runs[i].fault)
  {
    var jobs := Jobs(files, runs);
    assert jobs[i] == JobOf(files[i], runs[i]);
    assert Outcomes(jobs)[i] == ApplyAll(jobs[i].entry, jobs[i].trace);
  }

  /** The jobs carry the runs' ids. */
  lemma JobsFresh(fs: seq<UploadedFile>, files: seq<SelectedFile>, runs: seq<Run>)
    requires |runs| == |files|
    requires forall k :: 0 <= k < |runs| ==> Fresh(fs, runs[k].id)
    requires forall k, l :: 0 <= k < l < |runs| ==> runs[k].id != runs[l].id
    ensures FreshIds(fs, Jobs(files, runs))
  {
    var jobs := Jobs(files, runs);
    forall k | 0 <= k < |jobs| ensures jobs[k].entry.id == runs[k].id {
      assert jobs[k] == JobOf(files[k], runs[k]);
    }
  }

  // ---------------------------------------------------------------------------
  // The dialog's state
  // ---------------------------------------------------------------------------

  /** The `files` state of the dialog. Each method is one `setFiles` call or a handler made of them. */
  class FileTable {
    var files: seq<UploadedFile>

    constructor ()
      ensures files == []
    {
      files := [];
    }

    /** `setFiles(prev => [...prev, entry])`. */
    method Append(entry: UploadedFile)
      modifies this
      ensures files == old(files) + [entry]
    {
      files := files + [entry];
    }

    /** `setFiles(prev => prev.map(f => f.id === id ? { ...f, ... } : f))`. */
    method Update(id: string, u: Update)
      modifies this
      ensures files == UpdateById(old(files), id, u)
    {
      files := UpdateById(files, id, u);
    }

    /** `removeFile(id)`. */
    method Remove(id: string)
      modifies this
      ensures files == RemoveById(old(files), id)
    {
      files := RemoveById(files, id);
    }

    /** `processFile(file)` with the id it draws and the point where an exception, if any, strikes. */
    method ProcessFile(file: SelectedFile, id: string, fault: Option<nat>)
      modifies this
      ensures files == ApplyTrace(old(files) + [Initial(file, id)], id, Trace(file, fault))
    {
      ghost var start := files + [Initial(file, id)];
      Append(Initial(file, id));

      var stopped := UploadStage(file, id, fault, start);
      if stopped {
        return;
      }

      // Switch to processing.
      if fault == Some(11) {
        Interrupt(file, start, id, fault, 11);
        return;
      }
      Issue(file, start, id, 11, BeginProcessing);

      var estimated := EstimatedChunks(file.size);
      stopped := ChunkStage(file, id, fault, estimated, start);
      if stopped {
        return;
      }

      // Complete.
      if fault == Some(18) {
        Interrupt(file, start, id, fault, 18);
        return;
      }
      Issue(file, start, id, 18, Finish(estimated));

      // The success notification is still inside the `try`.
      if fault == Some(19) {
        Interrupt(file, start, id, fault, 19);
        return;
      }
    }

    /** The upload loop: progress 0, 10, ..., 100, one update per step (pipeline updates 0 to 10). */
    method UploadStage(file: SelectedFile, id: string, fault: Option<nat>, ghost start: seq<UploadedFile>)
      returns (stopped: bool)
      requires files == ApplyTrace(start, id, Plan(file, 0))
      modifies this
      ensures stopped ==> files == ApplyTrace(start, id, Trace(file, fault))
      ensures !stopped ==> files == ApplyTrace(start, id, Plan(file, 11))
      ensures !stopped ==> fault.None? || fault.value >= 11
    {
      var steps := 0;
      var progress := 0;
      while progress <= 100
        invariant 0 <= steps <= 11 && progress == 10 * steps
        invariant fault.None? || fault.value >= steps
        invariant files == ApplyTrace(start, id, Plan(file, steps))
      {
        if fault == Some(steps) {
          Interrupt(file, start, id, fault, steps);
          return true;
        }
        UploadStep(file, steps, progress);
        Issue(file, start, id, steps, SetProgress(progress));
        steps, progress := steps + 1, progress + 10;
      }
      return false;
    }

    /** The chunking loop: progress 0, 20, ..., 100 with the chunk count reached so far
        (pipeline updates 12 to 17). */
    method ChunkStage(file: SelectedFile, id: string, fault: Option<nat>, estimated: nat, ghost start: seq<UploadedFile>)
      returns (stopped: bool)
      requires estimated == EstimatedChunks(file.size)
      requires files == ApplyTrace(start, id, Plan(file, 12))
      requires fault.None? || fault.value >= 12
      modifies this
      ensures stopped ==> files == ApplyTrace(start, id, Trace(file, fault))
      ensures !stopped ==> files == ApplyTrace(start, id, Plan(file, 18))
      ensures !stopped ==> fault.None? || fault.value >= 18
    {
      var steps := 12;
      var progress := 0;
      while progress <= 100
        invariant 12 <= steps <= 18 && progress == 20 * (steps - 12)
        invariant fault.None? || fault.value >= steps
        invariant files == ApplyTrace(start, id, Plan(file, steps))
      {
        if fault == Some(steps) {
          Interrupt(file, start, id, fault, steps);
          return true;
        }
        var chunks := ChunksAt(estimated, progress);
        ChunkingStep(file, steps, progress);
        Issue(file, start, id, steps, SetChunking(progress, chunks));
        steps, progress := steps + 1, progress + 20;
      }
      return false;
    }

    /** Issues the pipeline's next update. */
    method Issue(file: SelectedFile, ghost start: seq<UploadedFile>, id: string, ghost steps: nat, u: Update)
      requires steps < PipelineLength && PlanStep(file, steps) == u
      requires files == ApplyTrace(start, id, Plan(file, steps))
      modifies this
      ensures files == ApplyTrace(start, id, Plan(file, steps + 1))
    {
      Update(id, u);
      ApplyTraceSnoc(start, id, Plan(file, steps), u);
    }

    /** The `catch` block: marks the entry as failed. */
    method Interrupt(file: SelectedFile, ghost start: seq<UploadedFile>, id: string, ghost fault: Option<nat>, ghost steps: nat)
      requires steps <= PipelineLength && fault == Some(steps)
      requires files == ApplyTrace(start, id, Plan(file, steps))
      modifies this
      ensures files == ApplyTrace(start, id, Trace(file, fault))
    {
      Update(id, Fail(FailureMessage));
      ApplyTraceSnoc(start, id, Plan(file, steps), Fail(FailureMessage));
    }

    /** `handleFileSelect(selected)`: nothing for a missing file list; otherwise every admitted file
        is processed once, in the order selected. `runs` supplies one id and fault point per
        admitted file. */
    method HandleFileSelect(selected: Option<seq<SelectedFile>>, runs: seq<Run>)
      requires selected.Some? ==> |runs| == |AdmitFiles(selected.value)|
      modifies this
      ensures selected.None? ==> files == old(files)
      ensures selected.Some? ==> files == ProcessAll(old(files), Jobs(AdmitFiles(selected.value), runs))
    {
      if selected.None? {
        return;
      }
      ProcessEach(AdmitFiles(selected.value), runs);
    }

    /** The `forEach` of `handleFileSelect`: processes the files one after the other. */
    method ProcessEach(valid: seq<SelectedFile>, runs: seq<Run>)
      requires |runs| == |valid|
      modifies this
      ensures files == ProcessAll(old(files), Jobs(valid, runs))
    {
      ghost var jobs := Jobs(valid, runs);
      for i := 0 to |valid|
        invariant files == ProcessAll(old(files), jobs[..i])
      {
        ProcessFile(valid[i], runs[i].id, runs[i].fault);
        assert jobs[i] == JobOf(valid[i], runs[i]);
        ProcessAllSnoc(old(files), jobs, i);
      }
      assert jobs[..|valid|] == jobs;
    }
  }
}
