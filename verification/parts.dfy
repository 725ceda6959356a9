/** The downloader's records: a file part (an inclusive byte range with a status) and
    a download task (one Telegram file split into parts), the split itself, and the
    paths of a part's temporary file and of the finished file. */
module Parts {
  import opened Wrappers
  import opened FileSystem
  import opened Decimal
  import opened Config
  import Paths

  /** Part and task statuses are plain strings in the progress record. */
  const PENDING: string := "pending"
  const DOWNLOADING: string := "downloading"
  const COMPLETED: string := "completed"
  const FAILED: string := "failed"

  datatype FilePart = FilePart(index: int, startOffset: int, endOffset: int, status: string) {
    /** Bytes in the inclusive range [startOffset, endOffset]. */
    function Size(): int {
      endOffset - startOffset + 1
    }

    predicate Contains(offset: int) {
      startOffset <= offset <= endOffset
    }
  }

  datatype DownloadTask = DownloadTask(
    messageId: int,
    chatId: int,
    fileName: string,
    fileSize: int,
    downloadedBytes: int,
    status: string,
    parts: seq<FilePart>,
    errorMessage: string,
    createdAt: string,
    updatedAt: string)

  function Min(a: int, b: int): int {
    if a <= b then a else b
  }

  /** The parts of a new task: `ceil(fileSize / PART_SIZE)` ranges of PART_SIZE bytes,
      the last one cut at the end of the file; a task whose size is not known
      (`fileSize <= 0`) gets the single range [0, 0]. */
  function SplitParts(fileSize: int): (parts: seq<FilePart>)
    ensures fileSize > 0 ==> (|parts| - 1) * PART_SIZE < fileSize <= |parts| * PART_SIZE
    ensures fileSize <= 0 ==> |parts| == 1 && parts[0].startOffset == 0 && parts[0].endOffset == 0
    ensures forall i :: 0 <= i < |parts| ==> parts[i].index == i && parts[i].status == PENDING
  {
    var n := if fileSize > 0 then (fileSize + PART_SIZE - 1) / PART_SIZE else 1;
    seq(n, i requires 0 <= i < n =>
      FilePart(i, i * PART_SIZE, if fileSize > 0 then Min((i + 1) * PART_SIZE - 1, fileSize - 1) else 0, PENDING))
  }

  /** Consecutive parts meet: each begins the byte after the previous one ends. */
  predicate Contiguous(parts: seq<FilePart>) {
    forall i :: 0 <= i < |parts| - 1 ==> parts[i + 1].startOffset == parts[i].endOffset + 1
  }

  /** The parts partition the byte range [lo, hi): contiguous, none empty, the first
      starting at lo and the last ending at hi - 1. */
  predicate Spans(parts: seq<FilePart>, lo: int, hi: int) {
    && |parts| > 0
    && parts[0].startOffset == lo
    && parts[|parts| - 1].endOffset == hi - 1
    && (forall i :: 0 <= i < |parts| ==> parts[i].startOffset <= parts[i].endOffset)
    && Contiguous(parts)
  }

  /** The part list of a task is laid out in index order. */
  predicate WellIndexed(parts: seq<FilePart>) {
    forall i :: 0 <= i < |parts| ==> parts[i].index == i
  }

  /** For a known size the split partitions [0, fileSize) into parts of PART_SIZE
      bytes, each starting on a chunk boundary, with only the last one shorter. */
  lemma SplitPartitions(fileSize: int)
    requires fileSize > 0
    ensures Spans(SplitParts(fileSize), 0, fileSize)
    ensures WellIndexed(SplitParts(fileSize))
    ensures forall i :: 0 <= i < |SplitParts(fileSize)| ==>
      && SplitParts(fileSize)[i].startOffset == i * PART_SIZE
      && SplitParts(fileSize)[i].startOffset % CHUNK_SIZE == 0
      && 1 <= SplitParts(fileSize)[i].Size() <= PART_SIZE
    ensures forall i :: 0 <= i < |SplitParts(fileSize)| - 1 ==> SplitParts(fileSize)[i].Size() == PART_SIZE
  {
    var parts := SplitParts(fileSize);
    var n := |parts|;
    forall i | 0 <= i < n
      ensures parts[i].startOffset == i * PART_SIZE
      ensures parts[i].startOffset % CHUNK_SIZE == 0
      ensures 1 <= parts[i].Size() <= PART_SIZE
      ensures i < n - 1 ==> parts[i].endOffset == (i + 1) * PART_SIZE - 1
      ensures i == n - 1 ==> parts[i].endOffset == fileSize - 1
    {
      SplitPartFacts(fileSize, n, i);
    }
    forall i | 0 <= i < n - 1
      ensures parts[i + 1].startOffset == parts[i].endOffset + 1
    {
    }
  }

  lemma SplitPartFacts(fileSize: int, n: int, i: int)
    requires fileSize > 0 && n == |SplitParts(fileSize)| && 0 <= i < n
    ensures SplitParts(fileSize)[i].startOffset == i * PART_SIZE
    ensures (i * PART_SIZE) % CHUNK_SIZE == 0
    ensures 1 <= SplitParts(fileSize)[i].Size() <= PART_SIZE
    ensures i < n - 1 ==> SplitParts(fileSize)[i].endOffset == (i + 1) * PART_SIZE - 1
    ensures i == n - 1 ==> SplitParts(fileSize)[i].endOffset == fileSize - 1
  {
    PartStartsAreChunkAligned(i);
    var p := SplitParts(fileSize)[i];
    assert p.endOffset == Min((i + 1) * PART_SIZE - 1, fileSize - 1);
    assert (n - 1) * PART_SIZE < fileSize <= n * PART_SIZE;
    assert i * PART_SIZE <= (n - 1) * PART_SIZE;
    if i < n - 1 {
      assert (i + 1) * PART_SIZE <= (n - 1) * PART_SIZE;
    }
  }

  /** An unknown size gives one part whose inclusive range [0, 0] counts one byte. */
  lemma SplitUnknownSize(fileSize: int)
    requires fileSize <= 0
    ensures |SplitParts(fileSize)| == 1 && SplitParts(fileSize)[0].Size() == 1
  {
  }

  /** Parts that span a range are ordered: an earlier part ends before a later one starts. */
  lemma {:induction false} SpansOrdered(parts: seq<FilePart>, lo: int, hi: int, i: int, j: int)
    requires Spans(parts, lo, hi)
    requires 0 <= i < j < |parts|
    ensures parts[i].endOffset < parts[j].startOffset
    decreases j - i
  {
    if j > i + 1 {
      SpansOrdered(parts, lo, hi, i, j - 1);
    }
  }

  /** Every byte of the range lies in exactly one part. */
  lemma SpansCover(parts: seq<FilePart>, lo: int, hi: int, offset: int)
    requires Spans(parts, lo, hi)
    requires lo <= offset < hi
    ensures exists i :: 0 <= i < |parts| && parts[i].Contains(offset)
    ensures forall i, j :: 0 <= i < |parts| && 0 <= j < |parts| && parts[i].Contains(offset) && parts[j].Contains(offset) ==> i == j
  {
    var k := CoverFrom(parts, lo, hi, offset, 0);
    forall i, j | 0 <= i < |parts| && 0 <= j < |parts| && parts[i].Contains(offset) && parts[j].Contains(offset)
      ensures i == j
    {
      if i < j {
        SpansOrdered(parts, lo, hi, i, j);
      } else if j < i {
        SpansOrdered(parts, lo, hi, j, i);
      }
    }
  }

  /** The part holding `offset`, searching from part `i` on. */
  lemma {:induction false} CoverFrom(parts: seq<FilePart>, lo: int, hi: int, offset: int, i: int) returns (k: int)
    requires Spans(parts, lo, hi)
    requires 0 <= i < |parts| && parts[i].startOffset <= offset < hi
    ensures i <= k < |parts| && parts[k].Contains(offset)
    decreases |parts| - i
  {
    if offset <= parts[i].endOffset {
      k := i;
    } else {
      assert i < |parts| - 1;
      k := CoverFrom(parts, lo, hi, offset, i + 1);
    }
  }

  /** Sum of the part sizes. */
  function SumSizes(parts: seq<FilePart>): int {
    if |parts| == 0 then 0 else parts[0].Size() + SumSizes(parts[1..])
  }

  /** Parts spanning [lo, hi) hold hi - lo bytes in all. */
  lemma {:induction false} SpansSum(parts: seq<FilePart>, lo: int, hi: int)
    requires Spans(parts, lo, hi)
    ensures SumSizes(parts) == hi - lo
  {
    if |parts| > 1 {
      var rest := parts[1..];
      forall i | 0 <= i < |rest| - 1
        ensures rest[i + 1].startOffset == rest[i].endOffset + 1
      {
        assert rest[i] == parts[i + 1] && rest[i + 1] == parts[i + 2];
      }
      assert Spans(rest, parts[0].endOffset + 1, hi);
      SpansSum(rest, parts[0].endOffset + 1, hi);
    }
  }

  /** `_get_part_path`: DOWNLOAD_DIR / PROGRESS_DIR / "<file name>.part<index>". */
  function PartPath(downloadDir: string, fileName: string, index: int): (path: string)
    ensures |path| > 0 && IsDigit(path[|path| - 1])
  {
    var name := fileName + ".part" + IntToString(index);
    var path := Paths.Join(Paths.Join(downloadDir, PROGRESS_DIR), name);
    assert path[|path| - 1] == name[|name| - 1];
    path
  }

  /** The finished file: DOWNLOAD_DIR / file name. */
  function FinalPath(downloadDir: string, fileName: string): string {
    Paths.Join(downloadDir, fileName)
  }

  /** A file name that names a plain file directly in the download directory:
      non-empty, without '/', and none of ".", ".." or the progress directory.
      Any other name makes the finished path a directory, a record or a file in
      a directory nobody creates. */
  predicate PlainName(name: string) {
    && |name| > 0 && name != "." && name != ".." && name != PROGRESS_DIR
    && forall k :: 0 <= k < |name| ==> name[k] != '/'
  }

  /** The finished file of a plain name sits directly in the download directory;
      it is neither the progress directory nor any progress record. */
  lemma PlainFinalPath(dir: string, name: string, messageId: int, chatId: int)
    requires PlainName(name)
    ensures FinalPath(dir, name) == Paths.Lead(dir) + name
    ensures FinalPath(dir, name) != Paths.Join(dir, PROGRESS_DIR)
    ensures FinalPath(dir, name) != ProgressFilePath(dir, messageId, chatId)
  {
    Paths.JoinRelative(dir, name);
    Paths.JoinRelative(dir, PROGRESS_DIR);
    if FinalPath(dir, name) == Paths.Join(dir, PROGRESS_DIR) {
      Paths.JoinInjective(dir, name, PROGRESS_DIR);
    }
    var l := Paths.Lead(dir);
    var pdir := Paths.Join(dir, PROGRESS_DIR);
    var rec := ProgressFileName(messageId, chatId);
    Paths.JoinRelative(pdir, rec);
    assert Paths.Lead(pdir) == l + PROGRESS_DIR + "/";
    var slash := |l| + |PROGRESS_DIR|;
    assert (l + PROGRESS_DIR + "/" + rec)[slash] == '/';
    if |name| > |PROGRESS_DIR| {
      assert (l + name)[slash] == name[|PROGRESS_DIR|] != '/';
    }
  }

  /** A name that is not plain can make the finished file a progress record:
      the progress directory, a '/', and the record's own name (for message 1 of
      chat 2, ".progress/task_2_1.json"). */
  lemma RecordNamedFinalPath(dir: string, messageId: int, chatId: int)
    ensures var name := PROGRESS_DIR + "/" + ProgressFileName(messageId, chatId);
      && FinalPath(dir, name) == ProgressFilePath(dir, messageId, chatId)
      && !PlainName(name)
  {
    var rec := ProgressFileName(messageId, chatId);
    SubdirectoryJoin(dir, PROGRESS_DIR, rec);
    SlashedNameIsNotPlain(PROGRESS_DIR, rec);
  }

  /** Joining a directory, then a name inside it, is joining the slashed name. */
  lemma SubdirectoryJoin(dir: string, sub: string, rec: string)
    requires |sub| > 0 && sub[0] != '/' && sub[|sub| - 1] != '/'
    requires |rec| == 0 || rec[0] != '/'
    ensures Paths.Join(Paths.Join(dir, sub), rec) == Paths.Join(dir, sub + "/" + rec)
  {
    var l := Paths.Lead(dir);
    Paths.JoinRelative(dir, sub);
    Paths.JoinRelative(Paths.Join(dir, sub), rec);
    assert Paths.Lead(Paths.Join(dir, sub)) == l + sub + "/";
    assert (sub + "/" + rec)[0] == sub[0];
    Paths.JoinRelative(dir, sub + "/" + rec);
    assert l + sub + "/" + rec == l + (sub + "/" + rec);
  }

  lemma SlashedNameIsNotPlain(sub: string, rec: string)
    ensures !PlainName(sub + "/" + rec)
  {
    assert (sub + "/" + rec)[|sub|] == '/';
  }

  /** Part files and progress records share one directory, yet no part file can
      overwrite a record: one name ends in a digit, the other in ".json". */
  lemma PartPathIsNotProgressPath(dir: string, fileName: string, index: int, messageId: int, chatId: int)
    ensures PartPath(dir, fileName, index) != ProgressFilePath(dir, messageId, chatId)
  {
    var p := ProgressFilePath(dir, messageId, chatId);
    assert p[|p| - 1] == 'n';
  }

  /** The parts of one task have distinct temporary files. */
  lemma PartPathInjective(dir: string, fileName: string, i: int, j: int)
    requires PartPath(dir, fileName, i) == PartPath(dir, fileName, j)
    ensures i == j
  {
    var head := fileName + ".part";
    var b1, b2 := head + IntToString(i), head + IntToString(j);
    if b1[0] == '/' {
      assert b2[0] == b1[0];
    } else {
      assert b2[0] == b1[0];
      Paths.JoinInjective(Paths.Join(dir, PROGRESS_DIR), b1, b2);
    }
    assert IntToString(i) == b1[|head|..] == b2[|head|..] == IntToString(j);
    IntToStringInjective(i, j);
  }

  /** Merging never reads and writes the same file: a part file is always a longer
      path than the finished file. */
  lemma PartPathIsNotFinalPath(dir: string, fileName: string, index: int)
    ensures PartPath(dir, fileName, index) != FinalPath(dir, fileName)
  {
    var name := fileName + ".part" + IntToString(index);
    if |fileName| > 0 && fileName[0] == '/' {
      assert name[0] == '/';
      assert |PartPath(dir, fileName, index)| == |name| > |fileName| == |FinalPath(dir, fileName)|;
    } else {
      var pd := Paths.Join(dir, PROGRESS_DIR);
      Paths.JoinRelative(dir, PROGRESS_DIR);
      assert name[0] == '.' || name[0] == fileName[0];
      Paths.JoinRelative(pd, name);
      Paths.JoinRelative(dir, fileName);
      assert |PartPath(dir, fileName, index)| >= |dir| + 9 + |name|;
    }
  }
}
