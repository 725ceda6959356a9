/** `ResumeDownloader.download` and the pieces it is built from: picking the media
    of a message, naming and splitting a new task or loading the saved one, choosing
    the parts still to fetch, running one worker per part, and merging. */
module Downloader {
  import opened Wrappers
  import opened FileSystem
  import opened Decimal
  import opened Config
  import opened Parts
  import opened Progress
  import opened Stream
  import opened Worker
  import opened Merge

  /** A media object: its class name, its `file_name` ("" when it has none) and its
      `file_size` (0 when it has none). */
  datatype Media = Media(typeName: string, fileName: string, fileSize: int)

  datatype WebPage = WebPage(video: Option<Media>, document: Option<Media>, audio: Option<Media>, photo: Option<Media>)

  /** The fields of a message that the downloader reads. */
  datatype Message = Message(id: int, chatId: int,
                             video: Option<Media>, document: Option<Media>, videoNote: Option<Media>,
                             voice: Option<Media>, audio: Option<Media>, photo: Option<Media>,
                             animation: Option<Media>, webPage: Option<WebPage>)

  function DirectSlots(m: Message): seq<Option<Media>> {
    [m.video, m.document, m.videoNote, m.voice, m.audio, m.photo, m.animation]
  }

  function PageSlots(w: WebPage): seq<Option<Media>> {
    [w.video, w.document, w.audio, w.photo]
  }

  /** `_get_media_from_message`: the message's own media in a fixed order of
      preference, and only when it has none, the media of its web page preview. */
  function GetMedia(m: Message): (r: Option<Media>)
    ensures m.video.Some? ==> r == m.video
    ensures FirstSome(DirectSlots(m)).Some? ==> r in DirectSlots(m)
    ensures r.None? <==> (forall i :: 0 <= i < 7 ==> DirectSlots(m)[i].None?)
                         && (m.webPage.None? || forall i :: 0 <= i < 4 ==> PageSlots(m.webPage.value)[i].None?)
  {
    var direct := FirstSome(DirectSlots(m));
    if direct.Some? then direct
    else if m.webPage.Some? then FirstSome(PageSlots(m.webPage.value))
    else None
  }

  function LowerChar(c: char): char {
    if 'A' <= c <= 'Z' then (c as int + 32) as char else c
  }

  function Lower(s: string): (r: string)
    ensures |r| == |s|
  {
    seq(|s|, i requires 0 <= i < |s| => LowerChar(s[i]))
  }

  /** `type(media).__name__`; a message without media yields `NoneType`. */
  function TypeName(media: Option<Media>): string {
    if media.Some? then media.value.typeName else "NoneType"
  }

  /** `isinstance(media, type(other))`, classes compared by name. */
  predicate SameClass(media: Option<Media>, other: Option<Media>) {
    if other.None? then media.None? else media.Some? && media.value.typeName == other.value.typeName
  }

  /** The extension of a generated file name, by what the message carries. */
  function FallbackExtension(m: Message, media: Option<Media>): (ext: string)
    ensures ext in {".mp4", ".ogg", ".mp3", ".jpg", ".unknown"}
    ensures m.videoNote.Some? || (m.video.Some? && m.voice.None? && m.audio.None? && m.photo.None?) ==> ext == ".mp4"
    ensures ext == ".unknown" ==> m.videoNote.None? && m.voice.None? && m.audio.None? && m.photo.None? && m.video.None?
  {
    if m.videoNote.Some? then ".mp4"
    else if m.voice.Some? then ".ogg"
    else if m.audio.Some? then ".mp3"
    else if m.photo.Some? then ".jpg"
    else if m.video.Some? then ".mp4"
    else if m.webPage.Some? && SameClass(media, m.webPage.value.video) then ".mp4"
    else ".unknown"
  }

  function MediaSize(media: Option<Media>): int {
    if media.Some? then media.value.fileSize else 0
  }

  /** The task's file name: the media's own name, or "<class>_<message id><ext>". */
  function TaskFileName(m: Message): (name: string)
    ensures GetMedia(m).Some? && GetMedia(m).value.fileName != "" ==> name == GetMedia(m).value.fileName
    ensures GetMedia(m).None? || GetMedia(m).value.fileName == "" ==>
      && (exists ext :: ext in {".mp4", ".ogg", ".mp3", ".jpg", ".unknown"} && name == Lower(TypeName(GetMedia(m))) + "_" + IntToString(m.id) + ext)
  {
    var media := GetMedia(m);
    if media.Some? && media.value.fileName != "" then media.value.fileName
    else Lower(TypeName(media)) + "_" + IntToString(m.id) + FallbackExtension(m, media)
  }

  /** A new task for a message: split by the media's size, status `downloading`. */
  function NewTask(m: Message, now: string): (t: DownloadTask)
    ensures t.messageId == m.id && t.chatId == m.chatId && t.fileName == TaskFileName(m)
    ensures t.fileSize == MediaSize(GetMedia(m)) && t.parts == SplitParts(t.fileSize)
    ensures t.status == DOWNLOADING && t.downloadedBytes == 0
  {
    var size := MediaSize(GetMedia(m));
    DownloadTask(m.id, m.chatId, TaskFileName(m), size, 0, DOWNLOADING, SplitParts(size), "", now, now)
  }

  /** The outcome of `_init_or_load_task`: the task and the disk after it, or the
      exception `download` raises when the loaded record holds a malformed part
      entry or one without a status. */
  datatype Init = Ready(task: DownloadTask, disk: Disk) | InitRaised

  /** `_init_or_load_task`: a readable record is resumed as it is; an unreadable
      one, or none, is replaced by a new task, which is saved at once. A record
      whose part list cannot be read is loaded, and `download` then raises when it
      rebuilds the parts; one with a part entry lacking `status` is loaded too, and
      `download` raises the progress monitor's `KeyError`. */
  function InitOrLoad(m: Message, disk: Disk, dir: string, now: string): (r: Init)
    ensures LoadRecord(disk, dir, m.id, m.chatId) in {Some(BadPart), Some(StatusMissing)} <==> r.InitRaised?
    ensures forall t :: LoadRecord(disk, dir, m.id, m.chatId) == Some(Loaded(t)) ==> r == Ready(t, disk)
    ensures LoadRecord(disk, dir, m.id, m.chatId) in {None, Some(BadRecord)} ==>
      && r.Ready?
      && r.task == NewTask(m, now).(updatedAt := now, downloadedBytes := r.task.downloadedBytes)
      && r.disk.files == disk.files
      && LoadRecord(r.disk, dir, m.id, m.chatId) == Some(Loaded(r.task))
  {
    match LoadRecord(disk, dir, m.id, m.chatId)
    case Some(Loaded(t)) => Ready(t, disk)
    case Some(BadPart) => InitRaised
    case Some(StatusMissing) => InitRaised
    case _ =>
      var t := NewTask(m, now);
      SaveThenLoad(t, disk, dir, now);
      var (saved, d) := SaveTask(t, disk, dir, now);
      Ready(saved, d)
  }

  /** The scan in `download`: a completed part is fetched again (as `pending`) when
      neither its part file nor the finished file exists. */
  function Demote(p: FilePart, files: Files, dir: string, fileName: string): (q: FilePart)
    ensures q == p.(status := q.status)
    ensures q.status != COMPLETED <==>
      p.status != COMPLETED || (PartPath(dir, fileName, p.index) !in files && FinalPath(dir, fileName) !in files)
  {
    if p.status == COMPLETED && PartPath(dir, fileName, p.index) !in files && FinalPath(dir, fileName) !in files
    then p.(status := PENDING)
    else p
  }

  /** The parts `download` hands to workers, in list order. */
  function PendingParts(parts: seq<FilePart>, files: Files, dir: string, fileName: string): (r: seq<FilePart>)
    ensures |r| <= |parts|
    ensures forall k :: 0 <= k < |r| ==> r[k].status != COMPLETED
  {
    if |parts| == 0 then []
    else
      var q := Demote(parts[0], files, dir, fileName);
      (if q.status != COMPLETED then [q] else []) + PendingParts(parts[1..], files, dir, fileName)
  }

  /** A part is handed to a worker exactly when it is not completed, or completed
      with neither its part file nor the finished file on disk; nothing else is. */
  lemma {:induction false} PendingSelection(parts: seq<FilePart>, files: Files, dir: string, fileName: string)
    ensures forall i :: 0 <= i < |parts| && Demote(parts[i], files, dir, fileName).status != COMPLETED ==>
      Demote(parts[i], files, dir, fileName) in PendingParts(parts, files, dir, fileName)
    ensures forall q :: q in PendingParts(parts, files, dir, fileName) ==>
      exists i :: 0 <= i < |parts| && q == Demote(parts[i], files, dir, fileName)
  {
    if |parts| > 0 {
      PendingSelection(parts[1..], files, dir, fileName);
      var q := Demote(parts[0], files, dir, fileName);
      var rest := PendingParts(parts[1..], files, dir, fileName);
      assert PendingParts(parts, files, dir, fileName) == (if q.status != COMPLETED then [q] else []) + rest;
      forall i | 1 <= i < |parts| ensures parts[i] == parts[1..][i - 1] {
      }
    }
  }

  /** Nothing is pending exactly when every part is completed and, for each, its
      part file or the finished file exists; then `download` merges at once. */
  lemma {:induction false} NothingPending(parts: seq<FilePart>, files: Files, dir: string, fileName: string)
    ensures |PendingParts(parts, files, dir, fileName)| == 0 <==>
      forall i :: 0 <= i < |parts| ==> Demote(parts[i], files, dir, fileName).status == COMPLETED
  {
    if |parts| > 0 {
      NothingPending(parts[1..], files, dir, fileName);
      forall i | 1 <= i < |parts| ensures parts[i] == parts[1..][i - 1] {
      }
    }
  }

  /** `task.parts[i]` with Python's indexing: a negative index counts from the end,
      anything else out of range raises. */
  function PyIndex(i: int, n: nat): (r: Option<nat>)
    ensures r.Some? <==> -(n as int) <= i < n
    ensures r.Some? ==> r.value < n && (0 <= i ==> r.value == i) && (i < 0 ==> r.value == n + i)
  {
    if 0 <= i < n then Some(i) else if -(n as int) <= i < 0 then Some((n as int + i) as nat) else None
  }

  /** Setting the status of the part dict in one slot of the task. */
  function SetStatus(t: DownloadTask, slot: nat, status: string): (r: DownloadTask)
    requires slot < |t.parts|
    ensures r == t.(parts := r.parts) && |r.parts| == |t.parts|
    ensures r.parts[slot] == t.parts[slot].(status := status)
    ensures forall j :: 0 <= j < |t.parts| && j != slot ==> r.parts[j] == t.parts[j]
  {
    t.(parts := t.parts[slot := t.parts[slot].(status := status)])
  }

  /** What one worker meets: whether a stop was already requested when it got
      its turn, and what its stream delivers on each attempt. */
  datatype WorkerInput = WorkerInput(stopAtEntry: bool, attempts: seq<Attempt>)

  /** The downloader's state between workers: the task in memory, the disk, the
      stop flag, and whether a worker raised. */
  datatype Step = Step(task: DownloadTask, disk: Disk, stopped: bool, raised: bool)

  /** The same task apart from part statuses and the fields every save restamps. */
  predicate SameTask(a: DownloadTask, b: DownloadTask) {
    && a.messageId == b.messageId && a.chatId == b.chatId && a.fileName == b.fileName
    && a.fileSize == b.fileSize && a.status == b.status && |a.parts| == |b.parts|
    && forall j :: 0 <= j < |a.parts| ==> a.parts[j] == b.parts[j].(status := a.parts[j].status)
  }

  lemma SameTaskTrans(a: DownloadTask, b: DownloadTask, c: DownloadTask)
    requires SameTask(a, b) && SameTask(b, c)
    ensures SameTask(a, c)
  {
    forall j | 0 <= j < |a.parts| ensures a.parts[j] == c.parts[j].(status := a.parts[j].status) {
      assert b.parts[j] == c.parts[j].(status := b.parts[j].status);
    }
  }

  /** Sets the status of one slot and saves the task; the part files are untouched. */
  function MarkAndSave(t: DownloadTask, disk: Disk, dir: string, now: string, slot: nat, status: string): (r: (DownloadTask, Disk))
    requires slot < |t.parts|
    ensures SameTask(r.0, t) && |r.0.parts| == |t.parts| && r.0.parts[slot].status == status
    ensures forall j :: 0 <= j < |t.parts| && j != slot ==> r.0.parts[j] == t.parts[j]
    ensures r.1.files == disk.files
    ensures LoadRecord(r.1, dir, t.messageId, t.chatId) == Some(Loaded(r.0))
  {
    var marked := SetStatus(t, slot, status);
    SaveThenLoad(marked, disk, dir, now);
    SaveTask(marked, disk, dir, now)
  }

  /** The worker's work on a part once it holds the slot: mark it `downloading`,
      run it, leave the part file as the run left it, record the final status. */
  function WorkPart(t: DownloadTask, disk: Disk, dir: string, now: string, part: FilePart, slot: nat,
                    attempts: seq<Attempt>, mode: Resume): (r: (DownloadTask, Disk, WorkerOutcome))
    requires slot < |t.parts|
    ensures SameTask(r.0, t) && r.0.parts[slot].status == r.2.status
    ensures forall j :: 0 <= j < |t.parts| && j != slot ==> r.0.parts[j] == t.parts[j]
    ensures r.2 == RunPart(part, Lookup(disk.files, PartPath(dir, t.fileName, part.index)), attempts, mode)
    ensures Lookup(r.1.files, PartPath(dir, t.fileName, part.index)) == r.2.temp
    ensures forall p :: p != PartPath(dir, t.fileName, part.index) ==> Lookup(r.1.files, p) == Lookup(disk.files, p)
    ensures LoadRecord(r.1, dir, t.messageId, t.chatId) == Some(Loaded(r.0))
  {
    var path := PartPath(dir, t.fileName, part.index);
    var (t1, d1) := MarkAndSave(t, disk, dir, now, slot, DOWNLOADING);
    var out := RunPart(part, Lookup(d1.files, path), attempts, mode);
    var d2 := d1.(files := Store(d1.files, path, out.temp));
    var (t2, d3) := MarkAndSave(t1, d2, dir, now, slot, out.status);
    SameTaskTrans(t2, t1, t);
    assert |t2.parts| == |t1.parts| == |t.parts|;
    assert forall j :: 0 <= j < |t.parts| && j != slot ==> t2.parts[j] == t1.parts[j] == t.parts[j];
    assert Lookup(d3.files, path) == out.temp;
    (t2, d3, out)
  }

  /** `_download_worker` for one part. A stop already requested ends it before it
      touches anything; a part index the task's list cannot resolve raises. */
  function RunWorker(s: Step, dir: string, now: string, part: FilePart, input: WorkerInput, mode: Resume): (r: Step)
    requires !s.raised
    ensures s.stopped || input.stopAtEntry ==> r == s.(stopped := true)
    ensures !r.raised ==> SameTask(r.task, s.task)
    ensures r.raised ==> r.disk == s.disk && PyIndex(part.index, |s.task.parts|).None?
    ensures forall p :: p != PartPath(dir, s.task.fileName, part.index) ==> Lookup(r.disk.files, p) == Lookup(s.disk.files, p)
    ensures forall j :: 0 <= j < |s.task.parts| && PyIndex(part.index, |s.task.parts|) != Some(j) && !r.raised ==>
      r.task.parts[j] == s.task.parts[j]
  {
    if s.stopped || input.stopAtEntry then s.(stopped := true)
    else match PyIndex(part.index, |s.task.parts|)
      case None => s.(raised := true)
      case Some(slot) =>
        var (t, d, out) := WorkPart(s.task, s.disk, dir, now, part, slot, input.attempts, mode);
        Step(t, d, out.stopped, false)
  }

  function InputAt(inputs: seq<WorkerInput>, k: nat): WorkerInput {
    if k < |inputs| then inputs[k] else WorkerInput(false, [])
  }

  /** The workers of `asyncio.gather`, one after another in list order; a raise
      ends the run. */
  function RunWorkers(s: Step, dir: string, now: string, pending: seq<FilePart>, inputs: seq<WorkerInput>, mode: Resume): (r: Step)
    ensures r.raised || SameTask(r.task, s.task)
    ensures s.stopped && !s.raised ==> r.stopped && !r.raised && r.task == s.task && r.disk == s.disk
    decreases |pending|
  {
    if |pending| == 0 || s.raised then s
    else
      var next := RunWorker(s, dir, now, pending[0], InputAt(inputs, 0), mode);
      RunWorkers(next, dir, now, pending[1..], if |inputs| > 0 then inputs[1..] else [], mode)
  }

  /** What `download` returns (None when it raises) and the disk it leaves. */
  datatype Run = Run(result: Option<bool>, disk: Disk)

  /** `download(message)`. */
  function Download(m: Message, disk: Disk, dir: string, now: string, inputs: seq<WorkerInput>,
                    stopAtEnd: bool, mode: Resume): (r: Run)
    ensures LoadRecord(disk, dir, m.id, m.chatId) in {Some(BadPart), Some(StatusMissing)} ==> r.result.None?
    ensures r.result == Some(true) ==>
      && InitOrLoad(m, disk, dir, now).Ready?
      && var t := InitOrLoad(m, disk, dir, now).task;
         && FinalPath(dir, t.fileName) in r.disk.files
         && |r.disk.files[FinalPath(dir, t.fileName)]| == t.fileSize
         && RecordPath(dir, t) !in r.disk.records
    ensures var init := InitOrLoad(m, disk, dir, now);
            init.Ready? && |PendingParts(init.task.parts, init.disk.files, dir, init.task.fileName)| == 0 ==>
              var mr := MergeParts(init.task, init.disk, dir, now);
              r == Run(Some(mr.ok), mr.disk)
  {
    match InitOrLoad(m, disk, dir, now)
    case InitRaised => Run(None, disk)
    case Ready(t, d) =>
      var pending := PendingParts(t.parts, d.files, dir, t.fileName);
      if |pending| == 0 then
        var mr := MergeParts(t, d, dir, now);
        Run(Some(mr.ok), mr.disk)
      else
        var s := RunWorkers(Step(t, d, false, false), dir, now, pending, inputs, mode);
        if s.raised then Run(None, s.disk)
        else if s.stopped || stopAtEnd then Run(Some(false), s.disk)
        else if AllCompleted(s.task.parts) then
          var mr := MergeParts(s.task, s.disk, dir, now);
          assert RecordPath(dir, s.task) == RecordPath(dir, t);
          Run(Some(mr.ok), mr.disk)
        else Run(Some(false), s.disk)
  }
}
