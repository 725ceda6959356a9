/** `_merge_parts` and `_delete_file_parts`: concatenating the part files into the
    finished file, checking its size, and cleaning up. */
module Merge {
  import opened Wrappers
  import opened FileSystem
  import opened Config
  import opened Parts
  import opened Progress

  /** The part files `_merge_parts` reads, in order: one per position in the part
      list, named by that position. */
  function MergePaths(dir: string, fileName: string, n: nat): (r: seq<string>)
    ensures |r| == n && forall i :: 0 <= i < n ==> r[i] == PartPath(dir, fileName, i)
  {
    seq(n, i => PartPath(dir, fileName, i))
  }

  /** The files at `paths[from..]`, read in order and written one after the other;
      the first missing one stops the merge. The flag says whether every one was
      there. */
  function Gather(files: Files, paths: seq<string>, from: nat): (r: (Bytes, bool))
    ensures r.1 <==> forall i :: from <= i < |paths| ==> paths[i] in files
    decreases |paths| - from
  {
    if from >= |paths| then ([], true)
    else match Lookup(files, paths[from])
      case None => ([], false)
      case Some(b) =>
        var rest := Gather(files, paths, from + 1);
        (b + rest.0, rest.1)
  }

  /** The part files of every part, by the index each part records. */
  function PartPaths(dir: string, fileName: string, parts: seq<FilePart>): set<string> {
    set k | 0 <= k < |parts| :: PartPath(dir, fileName, parts[k].index)
  }

  /** `_delete_file_parts`: removes whichever part files exist. */
  function DeleteParts(files: Files, dir: string, fileName: string, parts: seq<FilePart>): (r: Files)
    ensures forall k :: 0 <= k < |parts| ==> PartPath(dir, fileName, parts[k].index) !in r
    ensures forall p :: p in files && p !in PartPaths(dir, fileName, parts) ==> p in r && r[p] == files[p]
    ensures forall p :: p in r ==> p in files
  {
    files - PartPaths(dir, fileName, parts)
  }

  datatype MergeResult = MergeResult(ok: bool, task: DownloadTask, disk: Disk)

  /** `_merge_parts`. The finished file is opened for writing (emptied) first, so a
      missing part file leaves it holding the parts before the gap. Only the size of
      the result is checked. On success the task is saved as completed, its part
      files are deleted and its record is removed. */
  function MergeParts(t: DownloadTask, disk: Disk, dir: string, now: string): (r: MergeResult)
    ensures var g := Gather(disk.files, MergePaths(dir, t.fileName, |t.parts|), 0);
            && FinalPath(dir, t.fileName) in r.disk.files
            && r.disk.files[FinalPath(dir, t.fileName)] == g.0
            && (r.ok <==> g.1 && |g.0| == t.fileSize)
    ensures !r.ok ==> r.task == t && r.disk.records == disk.records
    ensures !r.ok ==> forall p :: p != FinalPath(dir, t.fileName) ==> Lookup(r.disk.files, p) == Lookup(disk.files, p)
    ensures r.ok ==> && r.task.status == COMPLETED && r.task.parts == t.parts
                     && RecordPath(dir, t) !in r.disk.records
                     && forall k :: 0 <= k < |t.parts| ==> PartPath(dir, t.fileName, t.parts[k].index) !in r.disk.files
    ensures r.ok ==> forall p :: p != FinalPath(dir, t.fileName) && p !in PartPaths(dir, t.fileName, t.parts) ==>
                       Lookup(r.disk.files, p) == Lookup(disk.files, p)
  {
    var finalPath := FinalPath(dir, t.fileName);
    var g := Gather(disk.files, MergePaths(dir, t.fileName, |t.parts|), 0);
    var written := disk.(files := Store(disk.files, finalPath, Some(g.0)));
    if !g.1 || |g.0| != t.fileSize then MergeResult(false, t, written)
    else CompleteMerge(t, written, dir, now)
  }

  /** The end of a merge whose size check passed: the task is saved as completed,
      then its part files are deleted and its record removed. */
  function CompleteMerge(t: DownloadTask, written: Disk, dir: string, now: string): (r: MergeResult)
    requires FinalPath(dir, t.fileName) in written.files
    ensures r.ok && r.task.status == COMPLETED && r.task.parts == t.parts
    ensures RecordPath(dir, t) !in r.disk.records
    ensures forall k :: 0 <= k < |t.parts| ==> PartPath(dir, t.fileName, t.parts[k].index) !in r.disk.files
    ensures FinalPath(dir, t.fileName) in r.disk.files
    ensures r.disk.files[FinalPath(dir, t.fileName)] == written.files[FinalPath(dir, t.fileName)]
    ensures forall p :: p !in PartPaths(dir, t.fileName, t.parts) ==> Lookup(r.disk.files, p) == Lookup(written.files, p)
  {
    var sv := SaveTask(t.(status := COMPLETED, downloadedBytes := t.fileSize), written, dir, now);
    FinalNotAmongParts(dir, t.fileName, t.parts);
    var files := DeleteParts(written.files, dir, t.fileName, t.parts);
    assert RecordPath(dir, sv.0) == RecordPath(dir, t);
    MergeResult(true, sv.0, Disk(files, sv.1.records - {RecordPath(dir, t)}))
  }

  lemma FinalNotAmongParts(dir: string, fileName: string, parts: seq<FilePart>)
    ensures FinalPath(dir, fileName) !in PartPaths(dir, fileName, parts)
  {
    forall k | 0 <= k < |parts| ensures PartPath(dir, fileName, parts[k].index) != FinalPath(dir, fileName) {
      PartPathIsNotFinalPath(dir, fileName, parts[k].index);
    }
  }

  /** The file at `paths[i]` holds exactly the bytes of part `i`'s range. */
  predicate PartHolds(files: Files, paths: seq<string>, parts: seq<FilePart>, content: Bytes, i: int)
    requires 0 <= i < |parts| && i < |paths|
  {
    && 0 <= parts[i].startOffset <= parts[i].endOffset < |content|
    && Lookup(files, paths[i]) == Some(content[parts[i].startOffset .. parts[i].endOffset + 1])
  }

  /** Every part file, by position, holds its part's range of `content`. */
  predicate PartFilesHold(files: Files, dir: string, fileName: string, parts: seq<FilePart>, content: Bytes) {
    forall i :: 0 <= i < |parts| ==>
      && 0 <= parts[i].startOffset <= parts[i].endOffset < |content|
      && Lookup(files, PartPath(dir, fileName, i)) == Some(content[parts[i].startOffset .. parts[i].endOffset + 1])
  }

  /** Part files holding their ranges of contiguous parts concatenate to the file's
      bytes from the first of them on. */
  lemma {:induction false} GatherSlices(files: Files, paths: seq<string>, parts: seq<FilePart>, content: Bytes, from: nat)
    requires from < |parts| == |paths|
    requires Contiguous(parts) && parts[|parts| - 1].endOffset == |content| - 1
    requires forall i :: from <= i < |parts| ==> PartHolds(files, paths, parts, content, i)
    ensures 0 <= parts[from].startOffset <= |content|
    ensures Gather(files, paths, from) == (content[parts[from].startOffset..], true)
    decreases |parts| - from
  {
    assert PartHolds(files, paths, parts, content, from);
    var b := content[parts[from].startOffset..parts[from].endOffset + 1];
    var rest := Gather(files, paths, from + 1);
    assert Gather(files, paths, from) == (b + rest.0, rest.1);
    if from + 1 < |parts| {
      GatherSlices(files, paths, parts, content, from + 1);
      assert parts[from + 1].startOffset == parts[from].endOffset + 1;
      SliceJoin(content, parts[from].startOffset, parts[from].endOffset + 1);
    } else {
      assert rest == ([], true);
      assert parts[from].endOffset + 1 == |content|;
      assert b == content[parts[from].startOffset..];
      assert b + [] == b;
    }
  }

  lemma SliceJoin(content: Bytes, s: int, m: int)
    requires 0 <= s <= m <= |content|
    ensures content[s..m] + content[m..] == content[s..]
  {
  }

  /** When every part file holds its part's range of a layout spanning the whole
      file, and the task names a plain file, the merge succeeds, the finished file
      is not the record and holds the file's bytes, and the part files and the
      record are gone. */
  lemma MergeAssemblesFile(t: DownloadTask, disk: Disk, dir: string, now: string, content: Bytes)
    requires t.fileSize == |content| && PlainName(t.fileName)
    requires Spans(t.parts, 0, |content|)
    requires PartFilesHold(disk.files, dir, t.fileName, t.parts, content)
    ensures var r := MergeParts(t, disk, dir, now);
            && r.ok
            && FinalPath(dir, t.fileName) != RecordPath(dir, t)
            && r.disk.files[FinalPath(dir, t.fileName)] == content
            && RecordPath(dir, t) !in r.disk.records
  {
    PlainFinalPath(dir, t.fileName, t.messageId, t.chatId);
    GatherWhole(disk.files, dir, t.fileName, t.parts, content);
  }

  /** Part files holding their ranges of a layout spanning the whole file gather,
      in position order, into the file's bytes. */
  lemma GatherWhole(files: Files, dir: string, fileName: string, parts: seq<FilePart>, content: Bytes)
    requires Spans(parts, 0, |content|)
    requires PartFilesHold(files, dir, fileName, parts, content)
    ensures Gather(files, MergePaths(dir, fileName, |parts|), 0) == (content, true)
  {
    var paths := MergePaths(dir, fileName, |parts|);
    forall i | 0 <= i < |parts| ensures PartHolds(files, paths, parts, content, i) {
    }
    GatherSlices(files, paths, parts, content, 0);
    assert content[0..] == content;
  }
}
