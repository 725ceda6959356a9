# Resumable chunked Telegram download: a Dafny model

This project models the bookkeeping core of a Telegram bot that downloads large
media files in resumable byte-range parts, and proves properties of it.

- **`ResumeDownloader`.** A task is keyed by `(message_id, chat_id)`. The task's
  file is cut into 10 MiB parts. Progress is kept in a JSON record next to the
  part files, and `downloaded_bytes` is recomputed on every save.
- **Part workers.** Each part is fetched by a worker that resumes inside the part,
  asks `stream_media` for 1 MiB chunks, and retries. A `FloodWait` is not counted
  as a retry. The worker truncates an overshoot and marks the part `completed` or
  `failed`.
- **Merge.** The parts are concatenated in index order and only the size of the
  result is checked.
- **`TaskQueue`.** Messages are drained one at a time.
- **The message handler.** It filters media types, resolves forwarded messages,
  and parses `t.me` links into a chat identifier and a message id. It also
  chooses the proxy type.
- **The older single-stream downloader.** Its retry budget grows with the file
  size and the wait between attempts grows with the attempt number.

The disk is a map from paths to byte sequences. Progress records sit beside it
as a map from paths to JSON objects. Writing a record (a `.tmp` file, then
`os.replace`) is one atomic map update. There are no directories, and a file
path never aliases a record path. The end-to-end results are stated for media
file names that keep this true (`Parts.PlainName`; see "## Left out").

Everything the bot gets from the network is a parameter:
- what `stream_media` delivers on each attempt, and how that attempt ends;
- what `get_messages` returned;
- what `download_media` returned.

Workers run one after another in list order. The stop flag and the timestamp are
parameters too.

Modules, in dependency order:

| module | file | covers |
|---|---|---|
| `Wrappers` | wrappers.dfy | `Option`, and the first present value of a list (Python's `a or b or ...`) |
| `Decimal` | decimal.dfy | `str(int)` and `int(str)` on ASCII digits |
| `Paths` | paths.dfy | `os.path.join` |
| `FileSystem` | filesystem.dfy | the disk as a map; `exists` / `getsize` |
| `Config` | config.dfy | `CHUNK_SIZE`, `PART_SIZE`, `MAX_RETRIES`, `RETRY_DELAY_BASE`, `get_progress_file_path` |
| `Parts` | parts.dfy | `FilePart`, `DownloadTask`, the split, part-file paths |
| `Progress` | progress.dfy | `to_dict` / `from_dict`, `_save_task` accounting, the record store |
| `Stream` | stream.dfy | the `stream_media` request arithmetic and an honest server's chunks |
| `Worker` | worker.dfy | `_download_worker` from the in-part resume on: the retry loop |
| `Merge` | merge.dfy | `_merge_parts`, `_delete_file_parts` |
| `Downloader` | download.dfy | media selection, file naming, `_init_or_load_task`, pending selection, workers in sequence, `download` |
| `EndToEnd` | endtoend.dfy | the whole `download` with the corrected worker against an honest server |
| `TaskQueue` | queue.dfy | `add_task`, `process_queue` |
| `Links` | links.dfy | the `t.me` URL pattern and `chat_identifier` |
| `Handler` | handler.dfy | the message handler's filter and forwarding logic, the proxy type |
| `Legacy` | legacy.dfy | the older single-stream downloader |

## Behaviour of the code worth knowing

- **A stop fails the part.** A stop request breaks the worker's retry loop and
  the part is marked `failed` (downloader.py:386, downloader.py:438). The part
  does not revert to `pending`, and no `cancelled` status is ever written.
- **Retries happen inside the worker.** A part worker retries up to
  `MAX_RETRIES` counted errors, sleeping `RETRY_DELAY_BASE` after each
  (downloader.py:383-435). Stream errors are not surfaced to the task at once.
- **No de-duplication.** `add_task` appends unconditionally (downloader.py:489-490).
  A task whose identity is already queued or finished is queued again.
- **Failed parts are simply retried.** `download` hands every part that is not
  `completed` to a worker, `failed` ones included. A `completed` part is fetched
  again only when both its part file and the finished file are gone
  (downloader.py:274-287).
- **An unknown size never merges.** A task of unknown size (`file_size == 0`)
  gets one part `[0, 0]` of one byte. The merge accepts only a result of exactly
  `file_size` bytes, so a completed one-byte part never passes the size check
  (`Parts.SplitUnknownSize`, `Merge.MergeParts`).
- **The `downloaded_bytes` assignment is overwritten.** The merge sets
  `downloaded_bytes = file_size` and then saves (downloader.py:467-468). The save
  recomputes the field from the part statuses and the part files, so the
  assignment is overwritten.
- **Missing API.** main.py imports `TelethonDownloader` and calls
  `initialize_workers` (main.py:10, main.py:140); neither is defined in
  downloader.py, and neither is modelled.

## Model

| member | source | states |
|---|---|---|
| Wrappers.FirstSome | downloader.py:161-163 | the result is absent exactly when every candidate is absent; otherwise it is the candidate at some position with every earlier candidate absent |
| Decimal.IntToString | config.py:73 | `str(i)` is non-empty, made only of digits and '-', and ends in a digit |
| Decimal.NatToStringRoundTrip | config.py:73 | reading back the decimal text of a natural number gives the number |
| Decimal.CanonicalRoundTrip | main.py:104 | a digit string without a leading zero is exactly the text `str` writes for its value |
| Decimal.IntToStringInjective | config.py:73 | distinct integers have distinct decimal text |
| Decimal.DigitsValueAppend | main.py:104 | the value of a concatenation of digit strings is the left value shifted by the right length plus the right value, which is what `int(f"-100{d}")` relies on |
| Paths.Join | downloader.py:157 | `os.path.join(a, b)` ends with `b`, and an absolute `b` replaces `a` |
| Paths.JoinRelative | config.py:70-74 | a relative component is appended to a prefix that depends only on the directory, and the path is at least as long as both |
| Paths.JoinInjective | downloader.py:157 | two relative names joined to the same directory give the same path only if the names are equal |
| FileSystem.Store | downloader.py:397-420 | writing or deleting one path changes that path and no other |
| Config.ProgressFileName | config.py:73 | the record name starts with 't' and ends in ".json" |
| Config.ProgressFilePath | config.py:67-74 | the record path ends in ".json" |
| Config.ProgressFileNameInjective | config.py:73 | `task_{chat_id}_{message_id}.json` names two identities alike only when both ids are equal, because decimal text has no '_' |
| Config.ProgressFilePathInjective | config.py:67-74 | in one download directory, two identities share a progress record only if they are the same identity |
| Config.PartStartsAreChunkAligned | config.py:49-50 | a part is ten chunks, so every part start `i * PART_SIZE` is a multiple of `CHUNK_SIZE` |
| Parts.SplitParts | downloader.py:208-221 | for a known size the number of parts is `ceil(file_size / PART_SIZE)`; an unknown size gives the single range [0, 0]; part `i` has index `i` and status `pending` |
| Parts.SplitPartitions | downloader.py:208-221 | for a known size the parts are contiguous and partition [0, file_size) in index order, each starts at `i * PART_SIZE` on a chunk boundary, all but the last hold exactly PART_SIZE bytes, and the last ends at `file_size - 1` |
| Parts.SplitPartFacts | downloader.py:218-221 | part `i` starts at `i * PART_SIZE` and ends at `(i + 1) * PART_SIZE - 1`, except that the last part ends at `file_size - 1` |
| Parts.SplitUnknownSize | downloader.py:211-220 | an unknown size gives one part, and its inclusive range counts one byte |
| Parts.SpansOrdered | downloader.py:216-221 | in a partition an earlier part ends before a later one starts |
| Parts.SpansCover | downloader.py:216-221 | every byte of the range lies in exactly one part |
| Parts.SpansSum | downloader.py:216-221 | the part sizes of a partition of [lo, hi) sum to hi - lo |
| Parts.PartPath | downloader.py:155-157 | a part file's path ends in a digit |
| Parts.PartPathIsNotProgressPath | downloader.py:157 | a part file never has the path of a progress record, though both live in the same directory |
| Parts.PartPathInjective | downloader.py:157 | the parts of one task have distinct part files |
| Parts.PlainFinalPath | downloader.py:445 | the finished path of a plain name (non-empty, no '/', not ".", ".." or ".progress") is the download directory's prefix followed by the name; it is neither the progress directory (config.py:65) nor any progress record (config.py:67-74) |
| Parts.RecordNamedFinalPath | downloader.py:184-185 | for any download directory, message and chat, the uploader's name `.progress/` followed by that task's record name (".progress/task_2_1.json" for message 1 of chat 2) is not plain, and its finished path is that task's record path (config.py:67-74) |
| Parts.PartPathIsNotFinalPath | downloader.py:445-450 | the merge never reads from the file it writes: a part file's path differs from the finished file's |
| Progress.PartsRoundTrip | downloader.py:221 | the part entries written by `asdict(FilePart)` read back through `FilePart(**p)` as the same parts |
| Progress.DictRoundTrip | downloader.py:52-57 | `from_dict(to_dict(t)) == t` for every task |
| Progress.AccountedAtMostSizes | downloader.py:242-252 | when no downloading part's file is longer than its range, the accounting lies between 0 and the sum of the part sizes |
| Progress.PartsToJsonHaveStatus | downloader.py:52-53 | every part entry `to_dict` writes carries its `status` |
| Progress.LoadedEntriesHaveStatus | downloader.py:55-57 | a record loads as a task only if every part entry carries `status`; a record readable apart from a missing `status` reads as `StatusMissing` |
| Progress.StatusLessEntryWitness | downloader.py:85-87 | the one-byte record whose only part entry is `{"index": 0, "start_offset": 0, "end_offset": 0}` reads as `StatusMissing`, not as a task |
| Progress.PartEntryAccepted | downloader.py:21-26 | one part entry of a record is accepted exactly when it has no unknown key, its three offsets are integers and any `status` is a string; an entry without `status` reads as pending |
| Progress.AccountingBounded | downloader.py:242-252 | for parts partitioning [0, file_size) with no downloading part file longer than its part, the recomputed `downloaded_bytes` lies in [0, file_size] |
| Progress.AccountingCompleted | downloader.py:244-246 | once every part is completed, the accounting is the sum of the part sizes whatever the part files hold |
| Progress.SaveTask | downloader.py:237-260 | a save changes only `updated_at` and `downloaded_bytes` in the task; `downloaded_bytes` becomes the completed parts' sizes plus the lengths of the downloading parts' files, pending and failed parts adding nothing; for parts partitioning [0, file_size) with no downloading part file longer than its part it lies in [0, file_size]; an all-completed task is saved with the sum of its part sizes; the files are untouched; only the task's own record is replaced, with its dict |
| Progress.SaveKeepsOtherRecords | downloader.py:240-258 | saving one task leaves the record of every other identity as it was |
| Progress.SaveThenLoad | downloader.py:254-258 | the record saved last reads back as the task that was saved |
| Stream.ChunkRequest | downloader.py:375-381 | the first requested chunk holds the resume offset, and the chunk count is the fewest whole chunks reaching the part's last byte |
| Stream.HonestStreamBytes | downloader.py:389-393 | the chunks of an honest `stream_media(offset, limit)` concatenate to the file's bytes from the first chunk, up to `limit` chunks or the end of the file |
| Stream.HonestAttemptsDeliver | downloader.py:389-398 | an attempt that got a prefix of the honest chunks delivered a prefix of the file's bytes from the first requested chunk |
| Worker.ResumePoint | downloader.py:355-362 | a part file longer than the part is deleted and the resume point is the part's start; otherwise the file is kept and the resume point is just after it |
| Worker.AppendChunks | downloader.py:397-398 | appending chunks leaves the old bytes followed by the chunks' bytes, and creates the file as soon as one chunk is written |
| Worker.Rewind | downloader.py:376 | cutting the file back keeps it present, leaves a prefix of it, and leaves exactly `keep` bytes when it had that many |
| Worker.RetryLoop | downloader.py:383-440 | the loop ends `completed` or `failed`; a completed part file is exactly the part's size; `failed` means MAX_RETRIES counted errors or a stop; the retry count never goes past MAX_RETRIES |
| Worker.RunPart | downloader.py:355-440 | the same outcome facts from the in-part resume on, with no counted error at the start; a part file already reaching past the part's end completes the part at once, with the file kept, no error counted, no sleep and no stream opened |
| Worker.AsWrittenKeepsDeliveredBytes | downloader.py:389-420 | as written, the part file only ever holds what it started with followed by the delivered chunks in delivery order, cut at the part size |
| Worker.NoDataExhaustsRetries | downloader.py:383-438 | a stream that never delivers a byte fails the part after exactly MAX_RETRIES counted errors, each followed by a RETRY_DELAY_BASE sleep |
| Worker.FloodWaitNotCounted | downloader.py:429-431 | a `FloodWait` sleeps its wait and uses up no retry: the loop goes on as if the wait had been slept before it |
| Worker.StopBeforeAttemptFails | downloader.py:383-438 | a stop requested before an attempt, including during the sleep after a failed one, is seen at the top of the loop: the part fails with no further error counted, no further sleep and the part file untouched |
| Worker.StopMidStreamFails | downloader.py:394-438 | a stop seen mid-stream with the part still short counts one error, sleeps once, then breaks out and marks the part failed |
| Worker.OvershootIsTruncated | downloader.py:416-425 | a stream that delivers more than the rest of the part completes it, with the file cut to exactly the part's size |
| Worker.RewindStable | downloader.py:383-435 | under the rewinding loop, bytes past the rewind point never affect the status, retries, sleeps or stop of the outcome |
| Worker.RetryAfterPartialAttemptDuplicates | downloader.py:376-435 | as written, an attempt that dies after one chunk, then an honest second attempt, "completes" the part with its first chunk twice: the part file is not the file's bytes |
| Worker.RetryAfterPartialAttemptRewound | downloader.py:376-435 | the same attempts with a rewind before each one leave exactly the file's bytes |
| Worker.MisalignedResumeDuplicates | downloader.py:355-398 | as written, a part file ending inside a chunk makes the stream restart at that chunk's first byte and append after the bytes already there: the part file is not the file's bytes |
| Worker.MisalignedResumeRewound | downloader.py:355-398 | the same resume with a rewind to the chunk boundary leaves exactly the file's bytes |
| Worker.RewindLoopExact | downloader.py:383-435 | the rewinding retry loop against an honest server keeps the part file a prefix of the file's bytes from the part's start, and a completed part holds exactly its byte range |
| Worker.RewindResumeIsExact | downloader.py:355-435 | for a part starting on a chunk boundary and an honest server, the rewinding worker started from a part file that is a prefix of the part's bytes, or longer than the part, leaves a faithful part file, and a completed part holds exactly its byte range |
| Worker.RewindPointInPart | downloader.py:376 | for a part starting on a chunk boundary, the first requested chunk starts inside the part and no later than the resume point |
| Merge.MergePaths | downloader.py:449-450 | the merge reads part files by position 0..n-1 |
| Merge.Gather | downloader.py:449-460 | the gather succeeds exactly when every part file is present |
| Merge.DeleteParts | downloader.py:262-266 | every part file of the task is gone afterwards, every other file is kept unchanged, and no file is created |
| Merge.MergeParts | downloader.py:442-479 | the finished file holds the part files concatenated in index order, up to the first missing one; the merge succeeds exactly when none is missing and the length equals `file_size`; a failure changes nothing but the finished file; a success marks the task completed and removes its part files and record, and leaves every other file as it was |
| Merge.CompleteMerge | downloader.py:465-472 | a merge that passed the size check saves the task as completed, keeps the finished file, and deletes the part files and the record |
| Merge.FinalNotAmongParts | downloader.py:445-450 | the finished file is never one of the part files the merge deletes |
| Merge.GatherSlices | downloader.py:448-460 | part files holding the ranges of contiguous parts concatenate to the file's bytes from the first of them on |
| Merge.MergeAssemblesFile | downloader.py:442-472 | when every part file holds its range of a partition of the file and the task names a plain file, the merge succeeds, the finished file is not the record path and holds the file's bytes, and the record is gone |
| Downloader.GetMedia | downloader.py:159-164 | the message's own media is preferred in a fixed order with video first; the web page's media is used only when the message has none of its own; there is no media exactly when all of these are absent |
| Downloader.FallbackExtension | downloader.py:187-196 | a generated name gets ".mp4" for a video note, or for a video with no voice, audio or photo; it gets ".unknown" only when none of these is present |
| Downloader.TaskFileName | downloader.py:184-199 | the media's own non-empty file name is kept; otherwise the name is "<class name in lower case>_<message id><extension>" |
| Downloader.NewTask | downloader.py:201-232 | a new task carries the message's identity and name, the media's size split into parts, status `downloading`, and zero bytes |
| Downloader.InitOrLoad | downloader.py:166-235 | a readable record is resumed unchanged; with no record or an unreadable one, a new task is created, saved and readable at once, and the files are untouched; a record with a malformed part entry, or with a part entry lacking `status`, makes `download` raise |
| Downloader.Demote | downloader.py:277-283 | only the status may change; a part is left not-completed exactly when it was not completed, or when neither its part file nor the finished file exists |
| Downloader.PendingParts | downloader.py:274-287 | no selected part is completed, and no more parts are selected than there are |
| Downloader.PendingSelection | downloader.py:274-287 | a part is handed to a worker exactly when it is not completed after demotion; every selected part is the demoted copy of some part of the task |
| Downloader.NothingPending | downloader.py:288-290 | nothing is selected exactly when every part is completed and each has its part file or the finished file on disk |
| Downloader.PyIndex | downloader.py:348 | `task.parts[i]` resolves exactly for -n <= i < n, counting a negative index from the end |
| Downloader.SetStatus | downloader.py:348-349 | only the status of the chosen slot changes |
| Downloader.MarkAndSave | downloader.py:348-350 | the slot gets the status, the other slots and the files are unchanged, and the record reads back as the new task |
| Downloader.WorkPart | downloader.py:348-440 | the slot ends with the run's status; the part file is what the run left; every other file and slot is unchanged; the record reads back as the task |
| Downloader.RunWorker | downloader.py:333-440 | a stop already requested changes nothing; an unresolvable part index raises and leaves the disk as it was; otherwise only the worker's own slot and part file change |
| Downloader.RunWorkers | downloader.py:295-305 | the workers never change the task beyond part statuses; once a stop is set, the remaining workers change nothing |
| Downloader.Download | downloader.py:268-331 | a record with a malformed part entry or a part entry lacking `status` makes `download` raise (downloader.py:276, downloader.py:87 re-raised at :311); when `download` reports success the finished file exists with exactly `file_size` bytes and the record is gone; a task with no pending part goes straight to the merge, and its outcome is the merge's (downloader.py:288-290) |
| EndToEnd.WorkPartKeepsDiskGood | downloader.py:348-440 | the rewinding worker's work on one slot against an honest server keeps every part file faithful and every completed part exact |
| EndToEnd.WorkerKeepsDiskGood | downloader.py:333-440 | one rewinding worker keeps the disk good, the layout, and the record in step with the task, and never raises |
| EndToEnd.WorkersKeepDiskGood | downloader.py:295-305 | the rewinding workers, one after another against honest servers, keep the disk good and the record in step, and never raise |
| EndToEnd.PendingSlotted | downloader.py:274-287 | each part handed to a worker is a copy of the slot its index names, and the indices strictly increase |
| EndToEnd.NothingPendingOnGoodDisk | downloader.py:281-290 | on a good disk nothing is pending exactly when every part is completed |
| EndToEnd.AllPartsHold | downloader.py:320-328 | when every part is completed on a good disk, every part file holds exactly its range of the file |
| EndToEnd.ResumeIsGoodStart | downloader.py:170-177 | the disk an unfinished download leaves is a good start for the next `download` of the message |
| EndToEnd.FreshStartIsGood | downloader.py:181-233 | a first download, with no record and no part files, a known size and a plain file name, starts good |
| EndToEnd.DownloadIsExact | downloader.py:268-331 | with the rewinding worker and honest servers, `download` from a good start never raises. A good start names a plain file and excludes a record with a part entry lacking `status`; on success the finished file is exactly the file's bytes and the record is gone; otherwise the disk is resumable |
| TaskQueue.AddTask | downloader.py:489-490 | the message joins the end of the list and `is_running` is unchanged |
| TaskQueue.AddAllAppends | downloader.py:489-490 | messages wait in the order they were added, after those already waiting |
| TaskQueue.ProcessQueueAsWritten | downloader.py:499-507 | a call while a drain runs does nothing; otherwise downloaded and still-waiting messages together are the list in order, and `is_running` stays set exactly when a download raised |
| TaskQueue.PopAll | downloader.py:503-505 | the drain hands messages to `download` front first, and empties the list unless one raises |
| TaskQueue.ProcessQueue | downloader.py:499-507 | the drain inside `try`/`finally` always clears `is_running`; without a raise every waiting message is downloaded in order; with one, the raising message is the last downloaded and the rest wait in order |
| TaskQueue.DrainWithoutRaise | downloader.py:503-507 | when no download raises, the drain downloads every waiting message in order and leaves the list empty and `is_running` cleared |
| TaskQueue.StrandedAfterRaise | downloader.py:499-507 | after a raise, every later call does nothing whatever is added: the messages left waiting are never downloaded |
| TaskQueue.FirstRaiseStrandsSecond | downloader.py:499-507 | two messages waiting and the first download raising: the second stays waiting with `is_running` set |
| Links.Run | main.py:94 | a greedy run is the longest stretch of the class's characters starting there |
| Links.RunIs | main.py:94 | a run of class characters ended by the end of the text or another character is what the greedy run reads |
| Links.HostEnd | main.py:94 | `https?://t\.me/` matches exactly when one of the two host texts is there |
| Links.MsgAt | main.py:94 | the message group is one or more ASCII digits |
| Links.MatchAt | main.py:94 | a match anchored at a position yields groups the pattern allows |
| Links.PrivateAt | main.py:94 | the private alternative yields a private chat with digit groups |
| Links.PublicAt | main.py:94 | the public alternative yields a public chat whose username is `[A-Za-z0-9_]+` |
| Links.MatchIsRendering | main.py:94 | a match is the text of the link it yields, with one of the two schemes, at the place it was found |
| Links.Search | main.py:95 | `re.search` finds nothing exactly when the pattern matches at no position; otherwise it yields the match at the leftmost matching position |
| Links.ChatIdentifier | main.py:101-106 | a public link names its username and a private one a number |
| Links.ParseLink | main.py:94-106 | nothing is looked up exactly when the text has no match; a private chat identifier is negative |
| Links.PrivateChatIsMinus100 | main.py:102-104 | a private channel's identifier is negative and its decimal text is "-100" followed by the link's digits |
| Links.RenderRoundTrip | main.py:94-95 | a link written with either scheme, followed by text that cannot continue it, is matched back as the same groups, at position 0 and by the search |
| Links.ParseRenderedLink | main.py:94-106 | such a message is looked up by the link's chat identifier (the username, or the number written "-100" then the digits) and the value of its message digits |
| Handler.Target | main.py:54-78 | a message with media is kept; a forwarded message without media is replaced only by a fetched source that has media |
| Handler.Handle | main.py:46-127 | only a message with wanted media is queued; a link is looked up only in non-empty text and as the parser reads it; a message queued after a lookup is the fetched one |
| Handler.MediaMessageFiltered | main.py:80-86 | a message with media is queued, as it is, exactly when it is a video, document or gif, and causes no link lookup |
| Handler.ForwardedSourceFiltered | main.py:57-84 | a forwarded message without media stands for its fetched source when that has media: the source is filtered and queued |
| Handler.LinkMessageQueued | main.py:88-124 | a text with a link is looked up by the link's chat and message id, and queued exactly when the fetched message has wanted media |
| Handler.ClientProxy | main.py:24-29 | no proxy exactly when none is configured; SOCKS5 exactly for the scheme "socks5", HTTP otherwise; host and port carried through |
| Legacy.HandlerMedia | tg_downloader.py:37-39 | `message.video or message.document`: the video if there is one, nothing only when both are absent |
| Legacy.AsWrittenFilterIsVideoOnly | tg_downloader.py:34 | the filter as written lets through exactly the caller's own videos |
| Legacy.DocumentDropped | tg_downloader.py:34 | the caller's own document without a video is dropped by the filter as written and accepted by the corrected one |
| Legacy.FilterMatchesHandler | tg_downloader.py:34-39 | the corrected filter lets through exactly the caller's messages for which the handler finds media |
| Legacy.LegacyFileName | tg_downloader.py:42 | the media's non-empty name is kept; otherwise the name is "video_" then the message id then ".mp4" |
| Legacy.MaxRetries | tg_downloader.py:51-58 | the budget is 5, 15 or 50: 5 exactly below 100 MiB, 50 exactly from 1024 MiB |
| Legacy.MaxRetriesMonotone | tg_downloader.py:51-58 | a larger file never gets a smaller retry budget |
| Legacy.BackOff | tg_downloader.py:103-104 | the wait lies between 5 and 30 seconds, and is at least 7 after a real attempt |
| Legacy.BackOffMonotone | tg_downloader.py:103-106 | the wait never decreases with the attempt number, and is 30 exactly from the 13th attempt on |
| Legacy.LegacyDownload | tg_downloader.py:62-106 | at most `max_retries` attempts; success exactly when some attempt within the budget returns a file of the declared size, and then it is the first such attempt; every failure but the last sleeps its back-off, a `FloodWait` sleeps its own wait instead, even on the last attempt |

## Left out

- **Network calls.** `stream_media`, `download_media`, `get_messages` and login are
  not modelled. Their results are parameters: a list of attempts, each with its
  chunks and how it ended, or the fetched message. The list of attempts is
  finite, and every attempt past its end is a counted error. So a server that
  answers every attempt with `FloodWait` forever cannot be represented. In the
  source such a worker never leaves its loop, because a `FloodWait` uses up no
  retry (downloader.py:429-431).
- **Concurrency.** `asyncio` concurrency is left out: the semaphore, `gather`, the
  write lock and the monitor task. Workers run one after another in list order. A
  worker that raises ends the run here, while `gather` lets the others run on.
- **Calls during a drain.** An `add_task` that interleaves with a running drain is
  not modelled. Calls that come after a drain are (`TaskQueue.StrandedAfterRaise`).
- **The stop request.** `request_stop` is a parameter. It can be requested before
  a worker starts, before an attempt, mid-stream, or once all workers are done
  (`stopAtEnd`).
- **Monitor and percentages.** `_monitor_progress` and `progress_percent` are not
  modelled beyond one effect. They write no file and no record, and their output
  is display-only floats and ANSI text. The one effect is that the monitor reads
  `part['status']` of every part entry (downloader.py:85-87). A loaded entry
  without that key makes it raise `KeyError`, which `download` re-raises
  (downloader.py:301-311). The model decodes such a record as `StatusMissing`,
  and `download` raises on it (`Downloader.Download`).
- **Timestamps and logging.** Timestamps are an opaque string parameter. Log
  messages and `print` are not modelled.
- **File access details.** Reads go through `os.path.exists` and `getsize`. Writes
  of whole files or appends are map updates. A crash between two writes is not
  modelled.
- **`file_id`.** The `download_target` choice (downloader.py:337-341) only selects
  what is streamed, and the stream is a parameter.
- **Parts.SplitParts:** `math.ceil(file_size / part_size)` uses float division; the model uses exact integer ceiling. The two agree below 2^53 bytes.
- **Legacy.MaxRetries:** the size in MiB is a float; the model compares whole byte counts. These agree because division by 1024 is exact in binary floating point below 2^53 bytes.
- **Progress.FromDict:** a task field of the wrong JSON kind makes the record unreadable here, so the task is created afresh. `DownloadTask(**data)` accepts it and fails only when the field is used. Unknown and missing keys behave as in the source. On its own, a part entry without `status` reads as pending, as `FilePart`'s default gives (`Progress.PartEntryAccepted`). A record holding such an entry is not loaded as a task, though. It reads as `StatusMissing` (`Progress.LoadedEntriesHaveStatus`), because `from_dict` keeps the part entries as the dicts read, and the monitor and `_save_task` index `p['status']` on them.
- **Progress.PartEntryAccepted:** a part entry with a field of the wrong JSON kind is rejected, so the record reads as `BadPart` and `download` raises here. `FilePart(**p)` (downloader.py:276) checks no types. A non-integer offset makes the source raise too, at the monitor's arithmetic (downloader.py:86). A non-string `status`, though, is accepted by the source. It compares equal to neither "completed" nor "downloading", so the part is downloaded as pending, and the worker overwrites the status (downloader.py:348-349). That download is not modelled.
- **Downloader.InitOrLoad:** raises on a record whose part entry has a non-string `status`. The source loads such a record and downloads the part (see `Progress.PartEntryAccepted` above).
- **Downloader.Download:** on a `StatusMissing` record the model raises before any worker runs, and reports the disk as it was loaded. In the source, the monitor's `KeyError` surfaces only after `gather` (downloader.py:304-311). By then the workers have run. With two or more such entries, a worker's `_save_task` also raises `KeyError` (downloader.py:245, downloader.py:350). What the workers write before the raise is not modelled.
- **Merge.CompleteMerge:** states nothing about `downloaded_bytes`. The source's `downloaded_bytes = file_size` (downloader.py:467) is overwritten by the recomputation in `_save_task`, and the record is deleted right after.
- **Paths.Join:** the model is `posixpath.join`. On Windows (`os.name == 'nt'`, where the default download directory is `D:/tg_downloads`, config.py:24-25) `os.path.join` is `ntpath.join`, which also treats `\` as a separator and handles drive letters. That branch is not modelled.
- **Merge.MergeAssemblesFile:** promised only for a plain file name (`Parts.PlainName`). The media's `file_name` is the uploader's text (downloader.py:184-185), and other names behave differently in the source:
  - a name like ".progress/task_2_1.json" makes the finished path the task's own record (`Parts.RecordNamedFinalPath`). `_save_task` then overwrites it with JSON and `os.remove` deletes it (downloader.py:468-471), while the merge still returns True;
  - the names ".", ".." and ".progress" make the finished path a directory, so `open(final_path, 'wb')` raises and the merge returns False (downloader.py:448, 477-479);
  - a name holding '/' puts the part files in a directory nobody creates (config.py:64-65), so every `open(part_path, 'ab')` raises (downloader.py:397).
- **EndToEnd.DownloadIsExact:** promised only from a good start, which requires a plain file name, for the reasons given under `Merge.MergeAssemblesFile`.
- **Merge.MergeParts:** records and files are two separate maps, and there are no directories. For a name that is not plain, the model's merge writes and keeps the finished file where the source loses it or fails, as described under `Merge.MergeAssemblesFile`. `Merge.CompleteMerge` and `Downloader.Download` inherit this. So does `Worker.AppendChunks`, whose appends always succeed.
- **Links.Search:** Python's `\d` also matches non-ASCII digits; the model accepts ASCII digits only.
- **Other files.** These are not part of this model:
  - `dashboard/server.py`, web UI code;
  - `database.py` and `disable_proxy.py`, thin wrappers;
  - `telethon_downloader.py`, `raw_downloader.py` and `browser_downloader.py`, one-shot network scripts;
  - `test_flow.py` and `check_session.py`, HTTP smoke scripts.
- **Environment handling in `config.py`.** Environment variables and
  `ensure_directories` are not modelled. The download directory is a parameter.
- **The rest of the legacy script.** Its progress callback, the resume-size
  printout and the client set-up are display or I/O only.

## Findings

| source | as written | input that shows it | evidently intended | confidence | as-written member | corrected member |
|---|---|---|---|---|---|---|
| downloader.py:376-435 | the chunk index is computed once before the retry loop, and every retry appends the re-streamed bytes after whatever the failed attempt already wrote | a 2 MiB part with an empty part file; the first attempt writes chunk 0 and then raises; the second streams chunks 0 and 1; the part "completes" as chunk 0 twice | each retry writes the bytes from the requested chunk at their own offsets (cut the part file back to the chunk boundary first), so a completed part is exactly its byte range | not executed; high | Worker.RetryAfterPartialAttemptDuplicates | Worker.RewindResumeIsExact |
| downloader.py:355-398 | the in-part resume point is the part file's length, but the stream restarts at the start of the chunk holding it and its bytes are appended after the whole file | a 2-byte part whose part file holds its first byte (a write cut short); the stream restarts at byte 0 and the part ends as byte 0 twice | bytes before the requested chunk's start are dropped from the part file before appending | not executed; medium (needs a part file that ends inside a chunk) | Worker.MisalignedResumeDuplicates | Worker.MisalignedResumeRewound |
| downloader.py:499-507 | `process_queue` has no `try`/`finally`: a `download` that raises leaves `is_running` set | two messages queued and the first download raising; the second is never downloaded, and every later `process_queue` call returns at once | clear `is_running` however the drain ends | not executed; high | TaskQueue.FirstRaiseStrandsSecond | TaskQueue.ProcessQueue |
| tg_downloader.py:34 | `filters.video or filters.document` is Python's `or` on two truthy objects, so it is `filters.video` | the caller's own message with a document and no video is never passed to the handler | `filters.video \| filters.document`, which the handler's `message.video or message.document` expects | not executed; high | Legacy.DocumentDropped | Legacy.FilterMatchesHandler |
