/** The downloader as a whole, with the corrected part worker (`RewindToChunk`)
    and a server that streams the file honestly: a download never raises, a
    successful one leaves exactly the file's bytes, and an unsuccessful one leaves
    a record from which the next run resumes under the same guarantees. */
module EndToEnd {
  import opened Wrappers
  import opened FileSystem
  import opened Config
  import opened Parts
  import opened Progress
  import opened Stream
  import opened Worker
  import opened Merge
  import opened Downloader

  /** The task names a plain file, and its parts split the file's bytes, in index
      order, each starting on a chunk boundary. */
  predicate Layout(t: DownloadTask, content: Bytes) {
    && PlainName(t.fileName)
    && t.fileSize == |content|
    && Spans(t.parts, 0, |content|)
    && WellIndexed(t.parts)
    && forall j :: 0 <= j < |t.parts| ==> t.parts[j].startOffset % CHUNK_SIZE == 0
  }

  /** Part file `j` never holds anything but the file's bytes from the part's start
      (unless it is too long and will be deleted), and a completed part's file
      holds exactly the part's range. */
  predicate PartGood(t: DownloadTask, files: Files, dir: string, content: Bytes, j: int)
    requires 0 <= j < |t.parts|
  {
    var p := t.parts[j];
    var f := Lookup(files, PartPath(dir, t.fileName, j));
    && (f.Some? && |f.value| <= p.Size() ==> Faithful(content, p.startOffset, f))
    && (p.status == COMPLETED ==> 0 <= p.startOffset <= p.endOffset < |content| && f == Some(content[p.startOffset .. p.endOffset + 1]))
  }

  predicate DiskGood(t: DownloadTask, files: Files, dir: string, content: Bytes) {
    forall j :: 0 <= j < |t.parts| ==> PartGood(t, files, dir, content, j)
  }

  /** The task in memory is the one its record holds. */
  predicate Recorded(s: Step, dir: string) {
    LoadRecord(s.disk, dir, s.task.messageId, s.task.chatId) == Some(Loaded(s.task))
  }

  /** The stream a worker meets is honest for the request it makes. */
  predicate HonestWorker(content: Bytes, part: FilePart, temp: Option<Bytes>, attempts: seq<Attempt>) {
    var offset := ResumePoint(part, temp).1;
    offset <= part.endOffset ==>
      var (first, limit) := ChunkRequest(offset, part.endOffset);
      first >= 0 && HonestAttempts(content, first, limit, attempts)
  }

  predicate HonestRun(content: Bytes, pending: seq<FilePart>, files: Files, dir: string, fileName: string, inputs: seq<WorkerInput>) {
    forall k :: 0 <= k < |pending| ==>
      HonestWorker(content, pending[k], Lookup(files, PartPath(dir, fileName, pending[k].index)), InputAt(inputs, k).attempts)
  }

  /** Each pending part is a copy of the slot its index names, and the indices
      increase along the list. */
  predicate Slotted(t: DownloadTask, pending: seq<FilePart>) {
    && (forall k :: 0 <= k < |pending| ==>
          0 <= pending[k].index < |t.parts| && pending[k] == t.parts[pending[k].index].(status := pending[k].status))
    && (forall k1, k2 :: 0 <= k1 < k2 < |pending| ==> pending[k1].index < pending[k2].index)
  }

  lemma SpansBounds(parts: seq<FilePart>, lo: int, hi: int, i: int)
    requires Spans(parts, lo, hi) && 0 <= i < |parts|
    ensures lo <= parts[i].startOffset <= parts[i].endOffset < hi
  {
    if i > 0 {
      SpansOrdered(parts, lo, hi, 0, i);
    }
    if i < |parts| - 1 {
      SpansOrdered(parts, lo, hi, i, |parts| - 1);
    }
  }

  lemma SameTaskLayout(a: DownloadTask, b: DownloadTask, content: Bytes)
    requires SameTask(a, b) && Layout(b, content)
    ensures Layout(a, content)
  {
    forall j | 0 <= j < |a.parts|
      ensures a.parts[j].index == b.parts[j].index
      ensures a.parts[j].startOffset == b.parts[j].startOffset && a.parts[j].endOffset == b.parts[j].endOffset
    {
      assert a.parts[j] == b.parts[j].(status := a.parts[j].status);
    }
  }

  /** What a worker's run does to the task and the disk, stated without the run:
      slot `i` takes the outcome's status, part file `i` holds the outcome's file,
      nothing else changes. The disk stays good when the outcome is faithful. */
  lemma DiskGoodAfterWork(t: DownloadTask, t': DownloadTask, files: Files, files': Files, dir: string, content: Bytes,
                          i: nat, out: WorkerOutcome)
    requires Layout(t, content) && DiskGood(t, files, dir, content)
    requires SameTask(t', t) && i < |t.parts| && t'.parts[i].status == out.status
    requires forall j :: 0 <= j < |t.parts| && j != i ==> t'.parts[j] == t.parts[j]
    requires Lookup(files', PartPath(dir, t.fileName, i)) == out.temp
    requires forall p :: p != PartPath(dir, t.fileName, i) ==> Lookup(files', p) == Lookup(files, p)
    requires 0 <= t.parts[i].startOffset <= t.parts[i].endOffset < |content| && ExactOutcome(content, t.parts[i], out)
    ensures Layout(t', content) && DiskGood(t', files', dir, content)
  {
    SameTaskLayout(t', t, content);
    forall j | 0 <= j < |t'.parts| ensures PartGood(t', files', dir, content, j) {
      if j == i {
        WorkedSlotGood(t, t', files', dir, content, i, out);
      } else {
        OtherSlotGood(t, t', files, files', dir, content, i, j);
      }
    }
  }

  lemma WorkedSlotGood(t: DownloadTask, t': DownloadTask, files': Files, dir: string, content: Bytes, i: nat, out: WorkerOutcome)
    requires SameTask(t', t) && i < |t.parts| && t'.parts[i].status == out.status
    requires Lookup(files', PartPath(dir, t.fileName, i)) == out.temp
    requires 0 <= t.parts[i].startOffset <= t.parts[i].endOffset < |content| && ExactOutcome(content, t.parts[i], out)
    ensures PartGood(t', files', dir, content, i)
  {
    assert t'.parts[i] == t.parts[i].(status := out.status);
  }

  lemma OtherSlotGood(t: DownloadTask, t': DownloadTask, files: Files, files': Files, dir: string, content: Bytes, i: nat, j: nat)
    requires j < |t.parts| && j != i && PartGood(t, files, dir, content, j)
    requires |t'.parts| == |t.parts| && t'.fileName == t.fileName && t'.parts[j] == t.parts[j]
    requires forall p :: p != PartPath(dir, t.fileName, i) ==> Lookup(files', p) == Lookup(files, p)
    ensures PartGood(t', files', dir, content, j)
  {
    var path := PartPath(dir, t.fileName, j);
    if path == PartPath(dir, t.fileName, i) {
      PartPathInjective(dir, t.fileName, j, i);
      assert false;
    }
    assert Lookup(files', path) == Lookup(files, path);
  }

  /** The corrected worker's run on slot `i` of a good disk, against an honest
      stream, leaves a faithful part file, exact when completed. */
  lemma SlotRunExact(t: DownloadTask, files: Files, dir: string, content: Bytes, part: FilePart, attempts: seq<Attempt>)
    requires Layout(t, content) && DiskGood(t, files, dir, content)
    requires 0 <= part.index < |t.parts| && part == t.parts[part.index].(status := part.status)
    requires HonestWorker(content, part, Lookup(files, PartPath(dir, t.fileName, part.index)), attempts)
    ensures var slot := t.parts[part.index];
            var out := RunPart(part, Lookup(files, PartPath(dir, t.fileName, part.index)), attempts, RewindToChunk);
            0 <= slot.startOffset <= slot.endOffset < |content| && ExactOutcome(content, slot, out)
  {
    var i := part.index;
    SpansBounds(t.parts, 0, |content|, i);
    assert PartGood(t, files, dir, content, i);
    RewindResumeIsExact(content, part, Lookup(files, PartPath(dir, t.fileName, i)), attempts);
  }

  /** The corrected worker's work on slot `i` keeps the layout and a good disk. */
  lemma WorkPartKeepsDiskGood(t: DownloadTask, disk: Disk, dir: string, now: string, part: FilePart,
                              attempts: seq<Attempt>, content: Bytes)
    requires Layout(t, content) && DiskGood(t, disk.files, dir, content)
    requires 0 <= part.index < |t.parts| && part == t.parts[part.index].(status := part.status)
    requires HonestWorker(content, part, Lookup(disk.files, PartPath(dir, t.fileName, part.index)), attempts)
    ensures var w := WorkPart(t, disk, dir, now, part, part.index, attempts, RewindToChunk);
            Layout(w.0, content) && DiskGood(w.0, w.1.files, dir, content)
  {
    var i := part.index;
    SlotRunExact(t, disk.files, dir, content, part, attempts);
    var w := WorkPart(t, disk, dir, now, part, i, attempts, RewindToChunk);
    DiskGoodAfterWork(t, w.0, disk.files, w.1.files, dir, content, i, w.2);
  }

  /** One corrected worker against an honest stream keeps the disk good, keeps the
      record in step with the task, and never raises. */
  lemma WorkerKeepsDiskGood(s: Step, dir: string, now: string, part: FilePart, input: WorkerInput, content: Bytes)
    requires !s.raised && Layout(s.task, content) && DiskGood(s.task, s.disk.files, dir, content) && Recorded(s, dir)
    requires 0 <= part.index < |s.task.parts| && part == s.task.parts[part.index].(status := part.status)
    requires HonestWorker(content, part, Lookup(s.disk.files, PartPath(dir, s.task.fileName, part.index)), input.attempts)
    ensures var r := RunWorker(s, dir, now, part, input, RewindToChunk);
            && !r.raised && Layout(r.task, content) && DiskGood(r.task, r.disk.files, dir, content) && Recorded(r, dir)
  {
    if !(s.stopped || input.stopAtEntry) {
      WorkPartKeepsDiskGood(s.task, s.disk, dir, now, part, input.attempts, content);
    }
  }

  /** After the first worker, the remaining parts are still copies of their slots. */
  lemma SlottedTail(t: DownloadTask, t': DownloadTask, pending: seq<FilePart>)
    requires |pending| > 0 && Slotted(t, pending) && SameTask(t', t)
    ensures Slotted(t', pending[1..])
  {
    forall k | 0 <= k < |pending| - 1
      ensures pending[1..][k] == t'.parts[pending[1..][k].index].(status := pending[1..][k].status)
    {
      var j := pending[k + 1].index;
      assert t'.parts[j] == t.parts[j].(status := t'.parts[j].status);
    }
  }

  /** The first worker touches only its own part file, so the streams the others
      meet are still honest for the requests they make. */
  lemma HonestRunTail(content: Bytes, pending: seq<FilePart>, files: Files, files': Files, dir: string, fileName: string,
                      inputs: seq<WorkerInput>)
    requires |pending| > 0 && HonestRun(content, pending, files, dir, fileName, inputs)
    requires forall k :: 1 <= k < |pending| ==> pending[k].index != pending[0].index
    requires forall p :: p != PartPath(dir, fileName, pending[0].index) ==> Lookup(files', p) == Lookup(files, p)
    ensures HonestRun(content, pending[1..], files', dir, fileName, if |inputs| > 0 then inputs[1..] else [])
  {
    var tail := if |inputs| > 0 then inputs[1..] else [];
    forall k | 0 <= k < |pending| - 1
      ensures HonestWorker(content, pending[1..][k], Lookup(files', PartPath(dir, fileName, pending[1..][k].index)), InputAt(tail, k).attempts)
    {
      var q := pending[k + 1];
      if PartPath(dir, fileName, q.index) == PartPath(dir, fileName, pending[0].index) {
        PartPathInjective(dir, fileName, q.index, pending[0].index);
      }
      assert InputAt(tail, k) == InputAt(inputs, k + 1);
      assert HonestWorker(content, q, Lookup(files, PartPath(dir, fileName, q.index)), InputAt(inputs, k + 1).attempts);
    }
  }

  /** The corrected workers, one after another against honest streams, keep the
      disk good and the record in step, and none of them raises. */
  lemma {:induction false} WorkersKeepDiskGood(s: Step, dir: string, now: string, pending: seq<FilePart>,
                                               inputs: seq<WorkerInput>, content: Bytes)
    requires !s.raised && Layout(s.task, content) && DiskGood(s.task, s.disk.files, dir, content) && Recorded(s, dir)
    requires Slotted(s.task, pending)
    requires HonestRun(content, pending, s.disk.files, dir, s.task.fileName, inputs)
    ensures var r := RunWorkers(s, dir, now, pending, inputs, RewindToChunk);
            && !r.raised && Layout(r.task, content) && DiskGood(r.task, r.disk.files, dir, content) && Recorded(r, dir)
    decreases |pending|
  {
    if |pending| > 0 {
      var tail := if |inputs| > 0 then inputs[1..] else [];
      var next := RunWorker(s, dir, now, pending[0], InputAt(inputs, 0), RewindToChunk);
      assert HonestWorker(content, pending[0], Lookup(s.disk.files, PartPath(dir, s.task.fileName, pending[0].index)), InputAt(inputs, 0).attempts);
      WorkerKeepsDiskGood(s, dir, now, pending[0], InputAt(inputs, 0), content);
      SlottedTail(s.task, next.task, pending);
      HonestRunTail(content, pending, s.disk.files, next.disk.files, dir, s.task.fileName, inputs);
      WorkersKeepDiskGood(next, dir, now, pending[1..], tail, content);
      assert RunWorkers(s, dir, now, pending, inputs, RewindToChunk) == RunWorkers(next, dir, now, pending[1..], tail, RewindToChunk);
    }
  }

  /** Each of `r` is a copy of the part of `parts` its index names, counting
      indices from `lo`. */
  predicate CopiesFrom(r: seq<FilePart>, parts: seq<FilePart>, lo: int) {
    forall k :: 0 <= k < |r| ==>
      lo <= r[k].index < lo + |parts| && r[k] == parts[r[k].index - lo].(status := r[k].status)
  }

  predicate IndicesIncrease(r: seq<FilePart>) {
    forall k1, k2 :: 0 <= k1 < k2 < |r| ==> r[k1].index < r[k2].index
  }

  /** The parts `download` selects, from a list whose `j`th part has index
      `lo + j`: each is a copy of the part its index names, in increasing order. */
  lemma {:induction false} PendingIndexed(parts: seq<FilePart>, files: Files, dir: string, fileName: string, lo: int)
    requires forall j :: 0 <= j < |parts| ==> parts[j].index == lo + j
    ensures CopiesFrom(PendingParts(parts, files, dir, fileName), parts, lo)
    ensures IndicesIncrease(PendingParts(parts, files, dir, fileName))
  {
    if |parts| > 0 {
      assert forall j :: 0 <= j < |parts[1..]| ==> parts[1..][j].index == lo + 1 + j by {
        forall j | 0 <= j < |parts[1..]| ensures parts[1..][j].index == lo + 1 + j {
          assert parts[1..][j] == parts[j + 1];
        }
      }
      PendingIndexed(parts[1..], files, dir, fileName, lo + 1);
      var q := Demote(parts[0], files, dir, fileName);
      var head := if q.status != COMPLETED then [q] else [];
      var rest := PendingParts(parts[1..], files, dir, fileName);
      assert PendingParts(parts, files, dir, fileName) == head + rest;
      CopiesShift(rest, parts, lo);
      ConsCopies(head, rest, parts, lo);
      ConsIncreases(head, rest, lo);
    }
  }

  lemma ConsCopies(head: seq<FilePart>, rest: seq<FilePart>, parts: seq<FilePart>, lo: int)
    requires |parts| > 0 && parts[0].index == lo
    requires |head| <= 1 && (|head| == 1 ==> head[0] == parts[0].(status := head[0].status))
    requires CopiesFrom(rest, parts, lo)
    ensures CopiesFrom(head + rest, parts, lo)
  {
    forall k | 0 <= k < |head + rest|
      ensures lo <= (head + rest)[k].index < lo + |parts|
      ensures (head + rest)[k] == parts[(head + rest)[k].index - lo].(status := (head + rest)[k].status)
    {
      if k >= |head| { assert (head + rest)[k] == rest[k - |head|]; }
    }
  }

  lemma CopiesShift(rest: seq<FilePart>, parts: seq<FilePart>, lo: int)
    requires |parts| > 0 && CopiesFrom(rest, parts[1..], lo + 1)
    ensures CopiesFrom(rest, parts, lo)
  {
    forall k | 0 <= k < |rest| ensures rest[k] == parts[rest[k].index - lo].(status := rest[k].status) {
      assert parts[1..][rest[k].index - (lo + 1)] == parts[rest[k].index - lo];
    }
  }

  lemma ConsIncreases(head: seq<FilePart>, rest: seq<FilePart>, lo: int)
    requires |head| <= 1 && (|head| == 1 ==> head[0].index == lo)
    requires IndicesIncrease(rest) && forall k :: 0 <= k < |rest| ==> lo < rest[k].index
    ensures IndicesIncrease(head + rest)
  {
  }

  /** The parts `download` hands to workers are slotted in the task they came from. */
  lemma PendingSlotted(t: DownloadTask, files: Files, dir: string)
    requires WellIndexed(t.parts)
    ensures Slotted(t, PendingParts(t.parts, files, dir, t.fileName))
  {
    PendingIndexed(t.parts, files, dir, t.fileName, 0);
  }

  /** When every part is completed on a good disk, every part file holds exactly
      its part's range, so the merge has all it needs. */
  lemma AllPartsHold(t: DownloadTask, files: Files, dir: string, content: Bytes)
    requires Layout(t, content) && DiskGood(t, files, dir, content) && AllCompleted(t.parts)
    ensures PartFilesHold(files, dir, t.fileName, t.parts, content)
  {
    forall i | 0 <= i < |t.parts|
      ensures 0 <= t.parts[i].startOffset <= t.parts[i].endOffset < |content|
      ensures Lookup(files, PartPath(dir, t.fileName, i)) == Some(content[t.parts[i].startOffset .. t.parts[i].endOffset + 1])
    {
      assert PartGood(t, files, dir, content, i);
    }
  }

  /** On a good disk nothing is pending exactly when every part is completed. */
  lemma NothingPendingOnGoodDisk(t: DownloadTask, files: Files, dir: string, content: Bytes)
    requires Layout(t, content) && DiskGood(t, files, dir, content)
    ensures |PendingParts(t.parts, files, dir, t.fileName)| == 0 <==> AllCompleted(t.parts)
  {
    NothingPending(t.parts, files, dir, t.fileName);
    forall i | 0 <= i < |t.parts| && t.parts[i].status == COMPLETED
      ensures Demote(t.parts[i], files, dir, t.fileName).status == COMPLETED
    {
      assert PartGood(t, files, dir, content, i);
    }
  }

  /** The state `download` starts from: it loads or creates a task for the
      message, the task splits the file's bytes, and the disk is good for it. */
  predicate GoodStart(m: Message, disk: Disk, dir: string, now: string, content: Bytes) {
    var init := InitOrLoad(m, disk, dir, now);
    && init.Ready? && init.task.messageId == m.id && init.task.chatId == m.chatId
    && Layout(init.task, content) && DiskGood(init.task, init.disk.files, dir, content)
  }

  /** What an unfinished download leaves: a readable record for the message whose
      task splits the file's bytes, on a disk good for it. */
  predicate Resumable(disk: Disk, dir: string, m: Message, content: Bytes) {
    var rec := LoadRecord(disk, dir, m.id, m.chatId);
    && rec.Some? && rec.value.Loaded?
    && rec.value.task.messageId == m.id && rec.value.task.chatId == m.chatId
    && Layout(rec.value.task, content) && DiskGood(rec.value.task, disk.files, dir, content)
  }

  /** A resumable disk is a good start for the next `download` of the message. */
  lemma ResumeIsGoodStart(m: Message, disk: Disk, dir: string, now: string, content: Bytes)
    requires Resumable(disk, dir, m, content)
    ensures GoodStart(m, disk, dir, now, content)
  {
  }

  /** A first download, with no record and no part files, starts good when the
      message reports the file's true, positive size under a plain file name. */
  lemma FreshStartIsGood(m: Message, disk: Disk, dir: string, now: string, content: Bytes)
    requires LoadRecord(disk, dir, m.id, m.chatId) == None
    requires |content| > 0 && MediaSize(GetMedia(m)) == |content| && PlainName(TaskFileName(m))
    requires forall i :: PartPath(dir, TaskFileName(m), i) !in disk.files
    ensures GoodStart(m, disk, dir, now, content)
  {
    var t := InitOrLoad(m, disk, dir, now).task;
    SplitPartitions(|content|);
    assert t.parts == SplitParts(|content|);
    forall j | 0 <= j < |t.parts| ensures PartGood(t, disk.files, dir, content, j) {
    }
  }

  /** The task `download` starts with is the one its record holds. */
  lemma StartRecorded(m: Message, disk: Disk, dir: string, now: string, content: Bytes)
    requires GoodStart(m, disk, dir, now, content)
    ensures var init := InitOrLoad(m, disk, dir, now); Recorded(Step(init.task, init.disk, false, false), dir)
  {
  }

  /** With the corrected worker and honest streams, `download` from a good start
      never raises; when it reports success the finished file holds exactly the
      file's bytes and the record is gone, and otherwise it leaves a resumable
      disk. */
  lemma DownloadIsExact(m: Message, disk: Disk, dir: string, now: string, inputs: seq<WorkerInput>,
                        stopAtEnd: bool, content: Bytes)
    requires GoodStart(m, disk, dir, now, content)
    requires var init := InitOrLoad(m, disk, dir, now);
             HonestRun(content, PendingParts(init.task.parts, init.disk.files, dir, init.task.fileName),
                       init.disk.files, dir, init.task.fileName, inputs)
    ensures var r := Download(m, disk, dir, now, inputs, stopAtEnd, RewindToChunk);
            var t := InitOrLoad(m, disk, dir, now).task;
            && r.result.Some?
            && (r.result == Some(true) ==>
                  && FinalPath(dir, t.fileName) in r.disk.files
                  && r.disk.files[FinalPath(dir, t.fileName)] == content
                  && RecordPath(dir, t) !in r.disk.records)
            && (r.result == Some(false) ==> Resumable(r.disk, dir, m, content))
  {
    var init := InitOrLoad(m, disk, dir, now);
    var t, d := init.task, init.disk;
    StartRecorded(m, disk, dir, now, content);
    var pending := PendingParts(t.parts, d.files, dir, t.fileName);
    NothingPendingOnGoodDisk(t, d.files, dir, content);
    if |pending| == 0 {
      AllPartsHold(t, d.files, dir, content);
      MergeAssemblesFile(t, d, dir, now, content);
    } else {
      PendingSlotted(t, d.files, dir);
      var s0 := Step(t, d, false, false);
      WorkersKeepDiskGood(s0, dir, now, pending, inputs, content);
      var s := RunWorkers(s0, dir, now, pending, inputs, RewindToChunk);
      if !(s.stopped || stopAtEnd) && AllCompleted(s.task.parts) {
        AllPartsHold(s.task, s.disk.files, dir, content);
        MergeAssemblesFile(s.task, s.disk, dir, now, content);
      }
    }
  }
}
