/** The progress record of a task: its JSON form (`to_dict` / `from_dict`), the byte
    accounting recomputed on every save, and the store of records on disk. */
module Progress {
  import opened Wrappers
  import opened FileSystem
  import opened Config
  import opened Parts

  /** The JSON values a progress record is made of. */
  datatype Json = JInt(i: int) | JStr(s: string) | JArr(items: seq<Json>) | JObj(fields: map<string, Json>)

  type Dict = map<string, Json>

  /** The disk: ordinary files, and progress records kept by path. A record write
      (the `.tmp` file then `os.replace`) is one atomic update of `records`. */
  datatype Disk = Disk(files: Files, records: map<string, Dict>)

  /** What reading a progress record yields. `BadRecord` is what `from_dict` rejects
      (the task is then created afresh); `BadPart` is a part entry that
      `FilePart(**p)` rejects later, which makes `download` raise. `StatusMissing`
      is a record whose part entries `FilePart(**p)` all accepts but one of which
      has no `status`: `from_dict` keeps the entries as the dicts read, and the
      progress monitor's `part['status']` on it raises `KeyError`, which `download`
      re-raises. */
  datatype Decoded = Loaded(task: DownloadTask) | BadRecord | BadPart | StatusMissing

  const TASK_KEYS: set<string> := {"message_id", "chat_id", "file_name", "file_size", "downloaded_bytes",
                                   "status", "parts", "error_message", "created_at", "updated_at"}
  const PART_KEYS: set<string> := {"index", "start_offset", "end_offset", "status"}

  function PartToDict(p: FilePart): Dict {
    map["index" := JInt(p.index), "start_offset" := JInt(p.startOffset),
        "end_offset" := JInt(p.endOffset), "status" := JStr(p.status)]
  }

  function PartsToJson(parts: seq<FilePart>): (r: seq<Json>)
    ensures |r| == |parts|
  {
    if |parts| == 0 then [] else [JObj(PartToDict(parts[0]))] + PartsToJson(parts[1..])
  }

  /** `asdict(task)`. */
  function ToDict(t: DownloadTask): Dict {
    map["message_id" := JInt(t.messageId), "chat_id" := JInt(t.chatId),
        "file_name" := JStr(t.fileName), "file_size" := JInt(t.fileSize),
        "downloaded_bytes" := JInt(t.downloadedBytes), "status" := JStr(t.status),
        "parts" := JArr(PartsToJson(t.parts)), "error_message" := JStr(t.errorMessage),
        "created_at" := JStr(t.createdAt), "updated_at" := JStr(t.updatedAt)]
  }

  function IntField(d: Dict, key: string, default: Option<int>): Option<int> {
    if key in d then (if d[key].JInt? then Some(d[key].i) else None) else default
  }

  function StrField(d: Dict, key: string, default: Option<string>): Option<string> {
    if key in d then (if d[key].JStr? then Some(d[key].s) else None) else default
  }

  /** `FilePart(**p)` on one entry of the record's part list: an unknown key is
      rejected, the three offsets are required and `status` defaults to pending. */
  function PartFromJson(j: Json): Option<FilePart> {
    if !j.JObj? || !(j.fields.Keys <= PART_KEYS) then None
    else
      var index :- IntField(j.fields, "index", None);
      var start :- IntField(j.fields, "start_offset", None);
      var end :- IntField(j.fields, "end_offset", None);
      var status :- StrField(j.fields, "status", Some(PENDING));
      Some(FilePart(index, start, end, status))
  }

  /** A part entry reads as a part exactly when its keys are among the four field
      names, the three offsets are present as integers, and a status, if present,
      is a string; a missing status reads as pending. */
  lemma PartEntryAccepted(fields: Dict)
    ensures PartFromJson(JObj(fields)).Some? <==>
      && fields.Keys <= PART_KEYS
      && "index" in fields && fields["index"].JInt?
      && "start_offset" in fields && fields["start_offset"].JInt?
      && "end_offset" in fields && fields["end_offset"].JInt?
      && ("status" in fields ==> fields["status"].JStr?)
    ensures PartFromJson(JObj(fields)).Some? && "status" !in fields ==> PartFromJson(JObj(fields)).value.status == PENDING
  {
  }

  /** Every entry of a part list carries a `status` key. */
  predicate StatusPresent(items: seq<Json>) {
    forall k :: 0 <= k < |items| ==> items[k].JObj? && "status" in items[k].fields
  }

  /** The entries `to_dict` writes always carry their status. */
  lemma {:induction false} PartsToJsonHaveStatus(parts: seq<FilePart>)
    ensures StatusPresent(PartsToJson(parts))
  {
    if |parts| > 0 {
      PartsToJsonHaveStatus(parts[1..]);
      assert PartsToJson(parts)[1..] == PartsToJson(parts[1..]);
    }
  }

  function PartsFromJson(items: seq<Json>): Option<seq<FilePart>> {
    if |items| == 0 then Some([])
    else
      var head :- PartFromJson(items[0]);
      var tail :- PartsFromJson(items[1..]);
      Some([head] + tail)
  }

  /** The scalar fields of a record: the four without a default are required,
      the others fall back to their defaults; the part list is read separately. */
  function TaskFields(d: Dict): Option<DownloadTask> {
    var messageId :- IntField(d, "message_id", None);
    var chatId :- IntField(d, "chat_id", None);
    var fileName :- StrField(d, "file_name", None);
    var fileSize :- IntField(d, "file_size", None);
    var downloaded :- IntField(d, "downloaded_bytes", Some(0));
    var status :- StrField(d, "status", Some(PENDING));
    var errorMessage :- StrField(d, "error_message", Some(""));
    var createdAt :- StrField(d, "created_at", Some(""));
    var updatedAt :- StrField(d, "updated_at", Some(""));
    Some(DownloadTask(messageId, chatId, fileName, fileSize, downloaded, status, [],
                      errorMessage, createdAt, updatedAt))
  }

  /** `DownloadTask.from_dict`: an unknown key is rejected, and so is a field of
      the wrong kind or a missing required one. */
  function FromDict(d: Dict): Decoded {
    if !(d.Keys <= TASK_KEYS) then BadRecord
    else
      var fields := TaskFields(d);
      if fields.None? then BadRecord
      else if "parts" !in d then Loaded(fields.value)
      else if !d["parts"].JArr? then BadRecord
      else
        match PartsFromJson(d["parts"].items)
        case None => BadPart
        case Some(parts) => if StatusPresent(d["parts"].items) then Loaded(fields.value.(parts := parts)) else StatusMissing
  }

  /** A record reads as a task only when every part entry it lists carries a
      status; a record whose entries are otherwise readable and one of which lacks
      it reads as `StatusMissing`. */
  lemma LoadedEntriesHaveStatus(d: Dict)
    requires "parts" in d
    ensures FromDict(d).Loaded? ==> d["parts"].JArr? && StatusPresent(d["parts"].items)
    ensures d.Keys <= TASK_KEYS && TaskFields(d).Some? && d["parts"].JArr? && PartsFromJson(d["parts"].items).Some? ==>
              (FromDict(d).Loaded? <==> StatusPresent(d["parts"].items))
              && (!StatusPresent(d["parts"].items) ==> FromDict(d) == StatusMissing)
  {
  }

  /** A one-byte task whose only part entry is `{"index": 0, "start_offset": 0,
      "end_offset": 0}` is not loaded as a task. */
  lemma StatusLessEntryWitness()
    ensures var entry := map["index" := JInt(0), "start_offset" := JInt(0), "end_offset" := JInt(0)];
            FromDict(map["message_id" := JInt(1), "chat_id" := JInt(2), "file_name" := JStr("f"),
                         "file_size" := JInt(1), "parts" := JArr([JObj(entry)])]) == StatusMissing
  {
    var entry := map["index" := JInt(0), "start_offset" := JInt(0), "end_offset" := JInt(0)];
    var d := map["message_id" := JInt(1), "chat_id" := JInt(2), "file_name" := JStr("f"),
                 "file_size" := JInt(1), "parts" := JArr([JObj(entry)])];
    assert entry.Keys <= PART_KEYS;
    assert PartFromJson(JObj(entry)) == Some(FilePart(0, 0, 0, PENDING));
    assert [JObj(entry)][1..] == [];
    assert PartsFromJson([JObj(entry)]) == Some([FilePart(0, 0, 0, PENDING)] + []);
    assert !StatusPresent([JObj(entry)]) by {
      assert "status" !in [JObj(entry)][0].fields;
    }
    assert d.Keys <= TASK_KEYS;
    assert TaskFields(d).Some?;
  }

  lemma {:induction false} PartsRoundTrip(parts: seq<FilePart>)
    ensures PartsFromJson(PartsToJson(parts)) == Some(parts)
  {
    if |parts| > 0 {
      var d := PartToDict(parts[0]);
      assert d.Keys == PART_KEYS;
      assert PartFromJson(JObj(d)) == Some(parts[0]);
      assert PartsToJson(parts)[1..] == PartsToJson(parts[1..]);
      PartsRoundTrip(parts[1..]);
      assert [parts[0]] + parts[1..] == parts;
    }
  }

  /** A saved task reads back as itself: `from_dict(to_dict(t)) == t`. */
  lemma DictRoundTrip(t: DownloadTask)
    ensures FromDict(ToDict(t)) == Loaded(t)
  {
    var d := ToDict(t);
    assert d.Keys == TASK_KEYS;
    assert TaskFields(d) == Some(t.(parts := []));
    PartsRoundTrip(t.parts);
    PartsToJsonHaveStatus(t.parts);
  }

  /** What one part adds to `downloaded_bytes`: its full size once completed, the
      length of its temporary file while downloading, nothing otherwise. */
  function Contribution(p: FilePart, temp: Option<Bytes>): int {
    if p.status == COMPLETED then p.Size()
    else if p.status == DOWNLOADING then SizeOr0(temp)
    else 0
  }

  function TempOf(files: Files, dir: string, fileName: string, p: FilePart): Option<Bytes> {
    Lookup(files, PartPath(dir, fileName, p.index))
  }

  /** The byte count `_save_task` computes over a part list. */
  function Accounted(parts: seq<FilePart>, files: Files, dir: string, fileName: string): int {
    if |parts| == 0 then 0
    else Contribution(parts[0], TempOf(files, dir, fileName, parts[0])) + Accounted(parts[1..], files, dir, fileName)
  }

  /** No downloading part has more bytes on disk than its range holds. */
  predicate TempsFit(parts: seq<FilePart>, files: Files, dir: string, fileName: string) {
    forall i :: 0 <= i < |parts| && parts[i].status == DOWNLOADING ==>
      SizeOr0(TempOf(files, dir, fileName, parts[i])) <= parts[i].Size()
  }

  /** Accounting never reports more bytes than the parts hold. */
  lemma {:induction false} AccountedAtMostSizes(parts: seq<FilePart>, files: Files, dir: string, fileName: string)
    requires TempsFit(parts, files, dir, fileName)
    requires forall i :: 0 <= i < |parts| ==> parts[i].Size() >= 0
    ensures 0 <= Accounted(parts, files, dir, fileName) <= SumSizes(parts)
  {
    if |parts| > 0 {
      assert TempsFit(parts[1..], files, dir, fileName) by {
        forall i | 0 <= i < |parts[1..]| && parts[1..][i].status == DOWNLOADING
          ensures SizeOr0(TempOf(files, dir, fileName, parts[1..][i])) <= parts[1..][i].Size()
        {
          assert parts[1..][i] == parts[i + 1];
        }
      }
      AccountedAtMostSizes(parts[1..], files, dir, fileName);
    }
  }

  /** For a task laid out over [0, file_size), `downloaded_bytes` stays within
      [0, file_size] as long as no downloading part's file overshoots its range. */
  lemma AccountingBounded(parts: seq<FilePart>, fileSize: int, files: Files, dir: string, fileName: string)
    ensures Spans(parts, 0, fileSize) && TempsFit(parts, files, dir, fileName) ==>
      0 <= Accounted(parts, files, dir, fileName) <= fileSize
  {
    if Spans(parts, 0, fileSize) && TempsFit(parts, files, dir, fileName) {
      SpansSum(parts, 0, fileSize);
      AccountedAtMostSizes(parts, files, dir, fileName);
    }
  }

  predicate AllCompleted(parts: seq<FilePart>) {
    forall i :: 0 <= i < |parts| ==> parts[i].status == COMPLETED
  }

  /** Once every part is completed the accounting is the sum of the part sizes,
      whatever the temporary files hold. */
  lemma {:induction false} AccountingCompleted(parts: seq<FilePart>, files: Files, dir: string, fileName: string)
    ensures AllCompleted(parts) ==> Accounted(parts, files, dir, fileName) == SumSizes(parts)
  {
    if |parts| > 0 && AllCompleted(parts) {
      assert AllCompleted(parts[1..]) by {
        forall i | 0 <= i < |parts[1..]| ensures parts[1..][i].status == COMPLETED {
          assert parts[1..][i] == parts[i + 1];
        }
      }
      AccountingCompleted(parts[1..], files, dir, fileName);
    }
  }

  /** The record a task is kept under. */
  function RecordPath(dir: string, t: DownloadTask): string {
    ProgressFilePath(dir, t.messageId, t.chatId)
  }

  /** `_save_task`: stamp `updated_at`, recompute `downloaded_bytes` from the part
      statuses and the part files, and replace the record. */
  function SaveTask(t: DownloadTask, disk: Disk, dir: string, now: string): (r: (DownloadTask, Disk))
    ensures r.0 == t.(updatedAt := now, downloadedBytes := r.0.downloadedBytes)
    ensures r.0.downloadedBytes == Accounted(t.parts, disk.files, dir, t.fileName)
    ensures AllCompleted(t.parts) ==> r.0.downloadedBytes == SumSizes(t.parts)
    ensures Spans(t.parts, 0, t.fileSize) && TempsFit(t.parts, disk.files, dir, t.fileName) ==>
      0 <= r.0.downloadedBytes <= t.fileSize
    ensures r.1.files == disk.files
    ensures r.1.records == disk.records[RecordPath(dir, t) := ToDict(r.0)]
  {
    var saved := t.(updatedAt := now, downloadedBytes := Accounted(t.parts, disk.files, dir, t.fileName));
    AccountingCompleted(t.parts, disk.files, dir, t.fileName);
    AccountingBounded(t.parts, t.fileSize, disk.files, dir, t.fileName);
    var path := RecordPath(dir, t);
    var d := ToDict(saved);
    var records := disk.records[path := d];
    assert records[path] == d;
    (saved, disk.(records := records))
  }

  /** Reading the record of an identity, if there is one. */
  function LoadRecord(disk: Disk, dir: string, messageId: int, chatId: int): Option<Decoded> {
    var path := ProgressFilePath(dir, messageId, chatId);
    if path in disk.records then Some(FromDict(disk.records[path])) else None
  }

  /** Saving one task never disturbs the record of another identity. */
  lemma SaveKeepsOtherRecords(t: DownloadTask, disk: Disk, dir: string, now: string, messageId: int, chatId: int)
    requires (messageId, chatId) != (t.messageId, t.chatId)
    ensures LoadRecord(SaveTask(t, disk, dir, now).1, dir, messageId, chatId) == LoadRecord(disk, dir, messageId, chatId)
  {
    if ProgressFilePath(dir, messageId, chatId) == RecordPath(dir, t) {
      ProgressFilePathInjective(dir, messageId, chatId, t.messageId, t.chatId);
    }
  }

  /** Resume across a restart: what was saved last is what is loaded next. */
  lemma SaveThenLoad(t: DownloadTask, disk: Disk, dir: string, now: string)
    ensures LoadRecord(SaveTask(t, disk, dir, now).1, dir, t.messageId, t.chatId) == Some(Loaded(SaveTask(t, disk, dir, now).0))
  {
    DictRoundTrip(SaveTask(t, disk, dir, now).0);
  }
}
