/** One part worker (`_download_worker`) once it holds the semaphore and has marked
    its part `downloading`: the in-part resume, the retry loop around `stream_media`,
    the truncation of an overshooting part file, and the final status. */
module Worker {
  import opened Wrappers
  import opened FileSystem
  import opened Config
  import opened Parts
  import opened Stream

  /** How an attempt treats the bytes already in the part file. `AsWritten`: every
      attempt appends after whatever the file holds, while the stream restarts at
      the chunk computed once before the loop. `RewindToChunk`: every attempt first
      cuts the file back to the bytes before that chunk, so the stream's bytes land
      at the offsets they belong to. */
  datatype Resume = AsWritten | RewindToChunk

  /** The part's final status, its part file, the counted errors, the seconds slept
      in order, and whether a stop was seen. */
  datatype WorkerOutcome = WorkerOutcome(status: string, temp: Option<Bytes>, retries: nat, sleeps: seq<nat>, stopped: bool)

  function Content(file: Option<Bytes>): Bytes {
    if file.Some? then file.value else []
  }

  /** The in-part resume point: a part file longer than the part is deleted and the
      part restarts at its first byte; otherwise it resumes right after the file. */
  function ResumePoint(part: FilePart, temp: Option<Bytes>): (r: (Option<Bytes>, int))
    ensures r.1 == part.startOffset + SizeOr0(r.0)
    ensures temp.Some? && |temp.value| > part.Size() ==> r.0.None?
    ensures !(temp.Some? && |temp.value| > part.Size()) ==> r.0 == temp
  {
    if temp.Some? && |temp.value| > part.Size() then (None, part.startOffset)
    else (temp, part.startOffset + SizeOr0(temp))
  }

  /** Appending chunks one `open(path, 'ab')` at a time: the file exists afterwards
      as soon as one chunk was written. */
  function AppendChunks(file: Option<Bytes>, chunks: seq<Bytes>): (r: Option<Bytes>)
    ensures Content(r) == Content(file) + Flatten(chunks)
    ensures r.None? <==> file.None? && |chunks| == 0
  {
    if |chunks| == 0 then file else Some(Content(file) + Flatten(chunks))
  }

  /** Cuts an existing file back to its first `keep` bytes. */
  function Rewind(file: Option<Bytes>, keep: int): (r: Option<Bytes>)
    ensures r.Some? <==> file.Some?
    ensures IsPrefix(Content(r), Content(file))
    ensures file.Some? && 0 <= keep <= |file.value| ==> |r.value| == keep
  {
    if file.None? then None
    else if keep <= 0 then Some([])
    else if keep >= |file.value| then file
    else Some(file.value[..keep])
  }

  /** Past the end of the given list the stream delivers nothing. */
  function NextAttempt(attempts: seq<Attempt>): Attempt {
    if |attempts| > 0 then attempts[0] else Attempt(false, [], Exhausted)
  }

  function Rest(attempts: seq<Attempt>): seq<Attempt> {
    if |attempts| > 0 then attempts[1..] else []
  }

  /** The `while retries < MAX_RETRIES` loop. A stop breaks out; `FloodWait` sleeps
      its wait without counting; any other exception, including a part file still
      short after the stream ended, counts one error and sleeps RETRY_DELAY_BASE; a
      file that reached the part's size is cut to exactly that size and completes
      the part. Leaving the loop marks the part failed. */
  function RetryLoop(part: FilePart, keep: int, file: Option<Bytes>, retries: nat, stopped: bool,
                     attempts: seq<Attempt>, sleeps: seq<nat>, mode: Resume): (out: WorkerOutcome)
    requires part.Size() >= 1
    ensures out.status == COMPLETED || out.status == FAILED
    ensures out.status == COMPLETED ==> out.temp.Some? && |out.temp.value| == part.Size()
    ensures out.status == FAILED ==> out.retries >= MAX_RETRIES || out.stopped
    ensures retries <= out.retries && (retries <= MAX_RETRIES ==> out.retries <= MAX_RETRIES)
    decreases |attempts|, MAX_RETRIES - retries
  {
    if retries >= MAX_RETRIES then WorkerOutcome(FAILED, file, retries, sleeps, stopped)
    else
      var a := NextAttempt(attempts);
      if stopped || a.stopBefore then WorkerOutcome(FAILED, file, retries, sleeps, true)
      else
        var f := AppendChunks(if mode == RewindToChunk then Rewind(file, keep) else file, a.chunks);
        if Finishes(a.end, f, part) then
          WorkerOutcome(COMPLETED, Some(Content(f)[..part.Size()]), retries, sleeps, a.end == StopSeen)
        else
          RetryLoop(part, keep, f, retries + Counted(a.end), a.end == StopSeen, Rest(attempts), sleeps + [Wait(a.end)], mode)
  }

  /** The stream ended normally (or broke on a stop) and the part file reached the
      part's size. */
  predicate Finishes(end: StreamEnd, f: Option<Bytes>, part: FilePart) {
    (end.Exhausted? || end.StopSeen?) && SizeOr0(f) >= part.Size()
  }

  /** A `FloodWait` is not counted; every other way an attempt fails is. */
  function Counted(end: StreamEnd): nat {
    if end.FloodWait? then 0 else 1
  }

  /** The sleep after a failed attempt: the server's wait, or the fixed retry delay. */
  function Wait(end: StreamEnd): nat {
    if end.FloodWait? then end.seconds else RETRY_DELAY_BASE
  }

  /** The worker from the in-part resume on: a part file that already holds the
      whole part completes it without streaming; otherwise the retry loop runs
      against the request computed from the resume point. */
  function RunPart(part: FilePart, temp: Option<Bytes>, attempts: seq<Attempt>, mode: Resume): (out: WorkerOutcome)
    ensures out.status == COMPLETED || out.status == FAILED
    ensures out.status == COMPLETED && part.Size() >= 1 ==> out.temp.Some? && |out.temp.value| == part.Size()
    ensures out.retries <= MAX_RETRIES
    ensures out.status == FAILED ==> out.retries == MAX_RETRIES || out.stopped
    ensures ResumePoint(part, temp).1 > part.endOffset ==> out == WorkerOutcome(COMPLETED, ResumePoint(part, temp).0, 0, [], false)
  {
    var rp := ResumePoint(part, temp);
    if rp.1 > part.endOffset then WorkerOutcome(COMPLETED, rp.0, 0, [], false)
    else RetryLoop(part, ChunkRequest(rp.1, part.endOffset).0 * CHUNK_SIZE - part.startOffset, rp.0, 0, false, attempts, [], mode)
  }

  /** Every chunk of every attempt, in order. */
  function AllChunks(attempts: seq<Attempt>): seq<Bytes> {
    if |attempts| == 0 then [] else attempts[0].chunks + AllChunks(attempts[1..])
  }

  /** As written, the part file only ever holds the bytes it started with followed
      by the chunks the stream delivered, in delivery order (cut at the part size). */
  lemma {:induction false} AsWrittenKeepsDeliveredBytes(part: FilePart, keep: int, file: Option<Bytes>, retries: nat,
                                                       stopped: bool, attempts: seq<Attempt>, sleeps: seq<nat>)
    requires part.Size() >= 1
    ensures IsPrefix(Content(RetryLoop(part, keep, file, retries, stopped, attempts, sleeps, AsWritten).temp),
                     Content(file) + Flatten(AllChunks(attempts)))
    decreases |attempts|, MAX_RETRIES - retries
  {
    if retries < MAX_RETRIES && !stopped && !NextAttempt(attempts).stopBefore {
      var a := NextAttempt(attempts);
      var f := AppendChunks(file, a.chunks);
      if !Finishes(a.end, f, part) {
        AsWrittenKeepsDeliveredBytes(part, keep, f, retries + Counted(a.end), a.end == StopSeen, Rest(attempts), sleeps + [Wait(a.end)]);
      }
      AsWrittenStep(part, keep, file, retries, attempts, sleeps);
    }
  }

  /** One turn of the loop as written: what the file holds afterwards is what it
      held before followed by what the turn delivered. */
  lemma AsWrittenStep(part: FilePart, keep: int, file: Option<Bytes>, retries: nat, attempts: seq<Attempt>, sleeps: seq<nat>)
    requires part.Size() >= 1 && retries < MAX_RETRIES && !NextAttempt(attempts).stopBefore
    requires var a := NextAttempt(attempts);
             var f := AppendChunks(file, a.chunks);
             !Finishes(a.end, f, part) ==>
               IsPrefix(Content(RetryLoop(part, keep, f, retries + Counted(a.end), a.end == StopSeen, Rest(attempts), sleeps + [Wait(a.end)], AsWritten).temp),
                        Content(f) + Flatten(AllChunks(Rest(attempts))))
    ensures IsPrefix(Content(RetryLoop(part, keep, file, retries, false, attempts, sleeps, AsWritten).temp),
                     Content(file) + Flatten(AllChunks(attempts)))
  {
    var a := NextAttempt(attempts);
    var f := AppendChunks(file, a.chunks);
    DeliveredStep(file, attempts);
    LoopStep(part, keep, file, retries, attempts, sleeps, AsWritten);
    if Finishes(a.end, f, part) {
      CutIsPrefix(Content(f), Flatten(AllChunks(Rest(attempts))), part.Size());
    }
  }

  lemma CutIsPrefix(x: Bytes, y: Bytes, n: nat)
    requires n <= |x|
    ensures IsPrefix(x[..n], x + y)
  {
    assert (x + y)[..n] == x[..n];
  }

  /** The bytes still to come after one attempt are the rest of the attempts' chunks. */
  lemma DeliveredStep(file: Option<Bytes>, attempts: seq<Attempt>)
    ensures Content(AppendChunks(file, NextAttempt(attempts).chunks)) + Flatten(AllChunks(Rest(attempts)))
         == Content(file) + Flatten(AllChunks(attempts))
  {
    if |attempts| > 0 {
      FlattenAppend(attempts[0].chunks, AllChunks(attempts[1..]));
    }
  }

  function Repeat(x: nat, n: nat): (r: seq<nat>)
    ensures |r| == n && forall i :: 0 <= i < n ==> r[i] == x
  {
    seq(n, _ => x)
  }

  /** A stream that never delivers a byte fails the part after exactly MAX_RETRIES
      counted errors, each followed by a RETRY_DELAY_BASE sleep. */
  lemma {:induction false} NoDataExhaustsRetries(part: FilePart, keep: int, file: Option<Bytes>, retries: nat,
                                                 attempts: seq<Attempt>, sleeps: seq<nat>, mode: Resume)
    requires part.Size() >= 1 && SizeOr0(file) < part.Size() && retries <= MAX_RETRIES
    requires forall k :: 0 <= k < |attempts| ==>
      !attempts[k].stopBefore && attempts[k].chunks == [] && attempts[k].end in {Raised, Exhausted}
    ensures var out := RetryLoop(part, keep, file, retries, false, attempts, sleeps, mode);
      && out.status == FAILED && out.retries == MAX_RETRIES && !out.stopped
      && out.sleeps == sleeps + Repeat(RETRY_DELAY_BASE, MAX_RETRIES - retries)
    decreases |attempts|, MAX_RETRIES - retries
  {
    if retries < MAX_RETRIES {
      var a := NextAttempt(attempts);
      assert !a.stopBefore && a.chunks == [] && (a.end.Raised? || a.end.Exhausted?) by {
        if |attempts| > 0 { assert a == attempts[0]; }
      }
      var f := AppendChunks(if mode == RewindToChunk then Rewind(file, keep) else file, a.chunks);
      assert SizeOr0(f) <= SizeOr0(file);
      assert !Finishes(a.end, f, part) && Counted(a.end) == 1 && Wait(a.end) == RETRY_DELAY_BASE;
      var rest := Rest(attempts);
      assert forall k :: 0 <= k < |rest| ==> rest[k] == attempts[k + 1];
      LoopStep(part, keep, file, retries, attempts, sleeps, mode);
      NoDataExhaustsRetries(part, keep, f, retries + 1, rest, sleeps + [RETRY_DELAY_BASE], mode);
      assert sleeps + [RETRY_DELAY_BASE] + Repeat(RETRY_DELAY_BASE, MAX_RETRIES - (retries + 1))
          == sleeps + Repeat(RETRY_DELAY_BASE, MAX_RETRIES - retries);
    } else {
      assert Repeat(RETRY_DELAY_BASE, 0) == [];
    }
  }

  lemma RewindIdempotent(file: Option<Bytes>, keep: int)
    ensures Rewind(Rewind(file, keep), keep) == Rewind(file, keep)
  {
  }

  /** Under `RewindToChunk` the loop's course does not depend on bytes past the
      rewind point, because the next attempt cuts them off anyway. */
  lemma RewindStable(part: FilePart, keep: int, file: Option<Bytes>, retries: nat, stopped: bool,
                     attempts: seq<Attempt>, sleeps: seq<nat>)
    requires part.Size() >= 1
    ensures var o1 := RetryLoop(part, keep, Rewind(file, keep), retries, stopped, attempts, sleeps, RewindToChunk);
            var o2 := RetryLoop(part, keep, file, retries, stopped, attempts, sleeps, RewindToChunk);
            o1.status == o2.status && o1.retries == o2.retries && o1.sleeps == o2.sleeps && o1.stopped == o2.stopped
  {
    RewindIdempotent(file, keep);
  }

  /** A `FloodWait` costs its wait and nothing else: it does not use up a retry,
      and the loop goes on exactly as if the wait had been slept beforehand. */
  lemma FloodWaitNotCounted(part: FilePart, keep: int, file: Option<Bytes>, retries: nat,
                            attempts: seq<Attempt>, sleeps: seq<nat>, mode: Resume, seconds: nat)
    requires part.Size() >= 1 && retries < MAX_RETRIES
    ensures var o1 := RetryLoop(part, keep, file, retries, false, [Attempt(false, [], FloodWait(seconds))] + attempts, sleeps, mode);
            var o2 := RetryLoop(part, keep, file, retries, false, attempts, sleeps + [seconds], mode);
            && o1.status == o2.status && o1.retries == o2.retries && o1.sleeps == o2.sleeps
            && (mode == AsWritten ==> o1 == o2)
  {
    var all := [Attempt(false, [], FloodWait(seconds))] + attempts;
    assert NextAttempt(all) == Attempt(false, [], FloodWait(seconds)) && Rest(all) == attempts;
    if mode == RewindToChunk {
      RewindStable(part, keep, file, retries, false, attempts, sleeps + [seconds]);
    }
  }

  /** A stop requested while the worker slept after a failed attempt is seen at the
      top of the loop: the part is marked failed (not pending) before the next
      attempt, with no further error counted, no further sleep and its file as the
      failed attempt left it. */
  lemma StopBeforeAttemptFails(part: FilePart, keep: int, file: Option<Bytes>, retries: nat,
                               attempts: seq<Attempt>, sleeps: seq<nat>, mode: Resume)
    requires part.Size() >= 1 && retries < MAX_RETRIES
    requires |attempts| > 0 && attempts[0].stopBefore
    ensures RetryLoop(part, keep, file, retries, false, attempts, sleeps, mode) == WorkerOutcome(FAILED, file, retries, sleeps, true)
  {
  }

  /** A stop seen in the middle of the stream, with the part still short, raises a
      counted error and then breaks the loop: the part is marked failed. */
  lemma StopMidStreamFails(part: FilePart, temp: Option<Bytes>, chunks: seq<Bytes>, attempts: seq<Attempt>)
    requires ResumePoint(part, temp).1 <= part.endOffset
    requires |Content(ResumePoint(part, temp).0)| + |Flatten(chunks)| < part.Size()
    ensures var out := RunPart(part, temp, [Attempt(false, chunks, StopSeen)] + attempts, AsWritten);
            out.status == FAILED && out.retries == 1 && out.stopped && out.sleeps == [RETRY_DELAY_BASE]
  {
    var all := [Attempt(false, chunks, StopSeen)] + attempts;
    assert NextAttempt(all) == Attempt(false, chunks, StopSeen);
    var (base, offset) := ResumePoint(part, temp);
    var (first, _) := ChunkRequest(offset, part.endOffset);
    var keep := first * CHUNK_SIZE - part.startOffset;
    var f := AppendChunks(base, chunks);
    assert SizeOr0(f) < part.Size();
    assert RunPart(part, temp, all, AsWritten) == RetryLoop(part, keep, base, 0, false, all, [], AsWritten);
    assert RetryLoop(part, keep, base, 0, false, all, [], AsWritten)
        == RetryLoop(part, keep, f, 1, true, Rest(all), [RETRY_DELAY_BASE], AsWritten);
  }

  /** A stream that delivers more than the rest of the part (whole 1 MiB chunks
      overshoot the last byte) completes the part with the file cut to exactly
      the part's size. */
  lemma OvershootIsTruncated(part: FilePart, temp: Option<Bytes>, chunks: seq<Bytes>, attempts: seq<Attempt>)
    requires ResumePoint(part, temp).1 <= part.endOffset
    requires |Content(ResumePoint(part, temp).0)| + |Flatten(chunks)| >= part.Size()
    ensures var out := RunPart(part, temp, [Attempt(false, chunks, Exhausted)] + attempts, AsWritten);
            && out.status == COMPLETED && out.retries == 0
            && out.temp == Some((Content(ResumePoint(part, temp).0) + Flatten(chunks))[..part.Size()])
  {
    var all := [Attempt(false, chunks, Exhausted)] + attempts;
    assert NextAttempt(all) == Attempt(false, chunks, Exhausted);
  }

  /** The part file holds the file's own bytes from the part's first byte on. */
  predicate Faithful(content: Bytes, start: int, file: Option<Bytes>) {
    file.None? || (0 <= start <= |content| && IsPrefix(file.value, content[start..]))
  }

  lemma PrefixJoin(content: Bytes, lo: int, mid: int, x: Bytes, y: Bytes)
    requires 0 <= lo <= mid <= |content|
    requires x == content[lo..mid]
    requires IsPrefix(y, content[mid..])
    ensures IsPrefix(x + y, content[lo..])
  {
    assert y == content[mid..mid + |y|];
    assert x + y == content[lo..mid + |y|];
  }

  /** Cutting a faithful part file back to `keep` bytes leaves exactly the file's
      first `keep` bytes from the part's start. */
  lemma RewindFaithful(content: Bytes, start: nat, keep: nat, file: Option<Bytes>)
    requires start + keep <= |content| && Faithful(content, start, file)
    requires file.None? ==> keep == 0
    requires file.Some? ==> |file.value| >= keep
    ensures Content(Rewind(file, keep)) == content[start..start + keep]
  {
    if file.Some? {
      assert file.value == content[start..][..|file.value|];
      assert file.value[..keep] == content[start..start + keep];
    }
  }

  /** An attempt delivering the file's bytes from `lo` on, and the same of the rest. */
  lemma DeliversNext(content: Bytes, lo: nat, attempts: seq<Attempt>)
    requires Delivers(content, lo, attempts)
    ensures IsPrefix(Flatten(NextAttempt(attempts).chunks), content[lo..])
    ensures Delivers(content, lo, Rest(attempts))
  {
    if |attempts| == 0 {
      assert Flatten(NextAttempt(attempts).chunks) == [];
    } else {
      assert NextAttempt(attempts) == attempts[0];
      var rest := Rest(attempts);
      forall k | 0 <= k < |rest| ensures IsPrefix(Flatten(rest[k].chunks), content[lo..]) {
        assert rest[k] == attempts[k + 1];
      }
    }
  }

  /** One corrected attempt keeps the part file faithful and no shorter than the
      rewind point, when the stream delivers the file's bytes from that point on. */
  lemma RewindStepFaithful(content: Bytes, part: FilePart, keep: nat, file: Option<Bytes>, attempts: seq<Attempt>)
    requires 0 <= part.startOffset && Delivers(content, part.startOffset + keep, attempts)
    requires Faithful(content, part.startOffset, file)
    requires file.None? ==> keep == 0
    requires file.Some? ==> |file.value| >= keep
    ensures var f := AppendChunks(Rewind(file, keep), NextAttempt(attempts).chunks);
            && Faithful(content, part.startOffset, f)
            && (f.None? ==> keep == 0)
            && (f.Some? ==> |f.value| >= keep)
            && Delivers(content, part.startOffset + keep, Rest(attempts))
  {
    var start := part.startOffset;
    var chunks := NextAttempt(attempts).chunks;
    var r := Rewind(file, keep);
    RewindFaithful(content, start, keep, file);
    DeliversNext(content, start + keep, attempts);
    PrefixJoin(content, start, start + keep, Content(r), Flatten(chunks));
    var f := AppendChunks(r, chunks);
    assert Content(f) == Content(r) + Flatten(chunks);
  }

  lemma FaithfulCut(content: Bytes, part: FilePart, f: Option<Bytes>)
    requires part.Size() >= 1 && part.endOffset < |content|
    requires Faithful(content, part.startOffset, f) && SizeOr0(f) >= part.Size()
    ensures Content(f)[..part.Size()] == content[part.startOffset .. part.endOffset + 1]
  {
    assert Content(f)[..part.Size()] == content[part.startOffset..][..part.Size()];
  }

  /** The part file the worker leaves is faithful, and exactly the part's byte
      range when the part is completed. */
  predicate ExactOutcome(content: Bytes, part: FilePart, out: WorkerOutcome)
    requires 0 <= part.startOffset <= part.endOffset + 1 <= |content|
  {
    && Faithful(content, part.startOffset, out.temp)
    && (out.status == COMPLETED ==> out.temp == Some(content[part.startOffset .. part.endOffset + 1]))
  }

  /** The retry loop under `RewindToChunk`, against an honest server: the part file
      never holds anything but the file's bytes from the part's start, and a
      completed part holds exactly the part's byte range. */
  lemma {:induction false} RewindLoopExact(content: Bytes, part: FilePart, keep: nat, file: Option<Bytes>,
                                           retries: nat, stopped: bool, attempts: seq<Attempt>, sleeps: seq<nat>)
    requires part.Size() >= 1 && 0 <= part.startOffset && part.endOffset < |content|
    requires Delivers(content, part.startOffset + keep, attempts)
    requires Faithful(content, part.startOffset, file)
    requires file.None? ==> keep == 0
    requires file.Some? ==> |file.value| >= keep
    ensures ExactOutcome(content, part, RetryLoop(part, keep, file, retries, stopped, attempts, sleeps, RewindToChunk))
    decreases |attempts|, MAX_RETRIES - retries
  {
    if retries < MAX_RETRIES && !stopped && !NextAttempt(attempts).stopBefore {
      var a := NextAttempt(attempts);
      var f := AppendChunks(Rewind(file, keep), a.chunks);
      RewindStepFaithful(content, part, keep, file, attempts);
      if !Finishes(a.end, f, part) {
        RewindLoopExact(content, part, keep, f, retries + Counted(a.end), a.end == StopSeen, Rest(attempts), sleeps + [Wait(a.end)]);
      }
      RewindStep(content, part, keep, file, retries, attempts, sleeps);
    } else {
      LoopHalts(part, keep, file, retries, stopped, attempts, sleeps, RewindToChunk);
    }
  }

  /** A loop out of retries, or stopped, leaves the part failed and its file as it is. */
  lemma LoopHalts(part: FilePart, keep: int, file: Option<Bytes>, retries: nat, stopped: bool,
                  attempts: seq<Attempt>, sleeps: seq<nat>, mode: Resume)
    requires part.Size() >= 1
    requires retries >= MAX_RETRIES || stopped || NextAttempt(attempts).stopBefore
    ensures RetryLoop(part, keep, file, retries, stopped, attempts, sleeps, mode).status == FAILED
    ensures RetryLoop(part, keep, file, retries, stopped, attempts, sleeps, mode).temp == file
  {
  }

  /** One turn of the corrected loop: a turn that completes the part leaves
      exactly the part's bytes, and one that does not leaves what the rest of the
      loop leaves. */
  lemma RewindStep(content: Bytes, part: FilePart, keep: nat, file: Option<Bytes>, retries: nat, attempts: seq<Attempt>, sleeps: seq<nat>)
    requires part.Size() >= 1 && 0 <= part.startOffset && part.endOffset < |content|
    requires retries < MAX_RETRIES && !NextAttempt(attempts).stopBefore
    requires var a := NextAttempt(attempts);
             var f := AppendChunks(Rewind(file, keep), a.chunks);
             && Faithful(content, part.startOffset, f)
             && (!Finishes(a.end, f, part) ==>
                   ExactOutcome(content, part, RetryLoop(part, keep, f, retries + Counted(a.end), a.end == StopSeen, Rest(attempts), sleeps + [Wait(a.end)], RewindToChunk)))
    ensures ExactOutcome(content, part, RetryLoop(part, keep, file, retries, false, attempts, sleeps, RewindToChunk))
  {
    var a := NextAttempt(attempts);
    var f := AppendChunks(Rewind(file, keep), a.chunks);
    LoopStep(part, keep, file, retries, attempts, sleeps, RewindToChunk);
    if Finishes(a.end, f, part) {
      FaithfulCut(content, part, f);
    }
  }

  /** With part starts on chunk boundaries (as the split guarantees) and an honest
      server, the corrected worker leaves a faithful part file behind, and a
      completed part holds exactly the bytes of its range: from a part file that is
      a prefix of the part's bytes, or longer than the part, however many attempts
      failed part way. */
  lemma RewindResumeIsExact(content: Bytes, part: FilePart, temp: Option<Bytes>, attempts: seq<Attempt>)
    requires part.Size() >= 1 && 0 <= part.startOffset && part.startOffset % CHUNK_SIZE == 0
    requires part.endOffset < |content|
    requires temp.Some? && |temp.value| <= part.Size() ==> IsPrefix(temp.value, content[part.startOffset..])
    requires var offset := ResumePoint(part, temp).1;
             offset <= part.endOffset ==>
               var (first, limit) := ChunkRequest(offset, part.endOffset);
               first >= 0 && HonestAttempts(content, first, limit, attempts)
    ensures var out := RunPart(part, temp, attempts, RewindToChunk);
            && Faithful(content, part.startOffset, out.temp)
            && (out.status == COMPLETED ==> out.temp == Some(content[part.startOffset .. part.endOffset + 1]))
  {
    var rp := ResumePoint(part, temp);
    if rp.1 > part.endOffset {
      WholeOnDiskExact(content, part, rp.0);
    } else {
      var req := ChunkRequest(rp.1, part.endOffset);
      StreamedPartExact(content, part, temp, attempts, rp.0, rp.1, req.0, req.1);
    }
  }

  /** The case of `RewindResumeIsExact` in which the part is still short and the
      retry loop runs. */
  lemma StreamedPartExact(content: Bytes, part: FilePart, temp: Option<Bytes>, attempts: seq<Attempt>,
                          base: Option<Bytes>, offset: int, first: nat, limit: nat)
    requires part.Size() >= 1 && 0 <= part.startOffset && part.startOffset % CHUNK_SIZE == 0
    requires part.endOffset < |content|
    requires temp.Some? && |temp.value| <= part.Size() ==> IsPrefix(temp.value, content[part.startOffset..])
    requires (base, offset) == ResumePoint(part, temp) && offset <= part.endOffset
    requires (first, limit) == ChunkRequest(offset, part.endOffset)
    requires HonestAttempts(content, first, limit, attempts)
    ensures ExactOutcome(content, part, RunPart(part, temp, attempts, RewindToChunk))
  {
    ResumeBaseFaithful(content, part, temp);
    StreamedLoopExact(content, part, base, offset, first, limit, attempts);
    RunPartEntersLoop(part, temp, attempts, RewindToChunk);
  }

  /** The corrected loop started at the request for resume point `offset`, just
      after a faithful part file. */
  lemma StreamedLoopExact(content: Bytes, part: FilePart, base: Option<Bytes>, offset: int, first: nat, limit: nat,
                          attempts: seq<Attempt>)
    requires part.Size() >= 1 && 0 <= part.startOffset && part.startOffset % CHUNK_SIZE == 0
    requires part.endOffset < |content|
    requires Faithful(content, part.startOffset, base) && offset == part.startOffset + SizeOr0(base)
    requires offset <= part.endOffset && (first, limit) == ChunkRequest(offset, part.endOffset)
    requires HonestAttempts(content, first, limit, attempts)
    ensures ExactOutcome(content, part, RetryLoop(part, first * CHUNK_SIZE - part.startOffset, base, 0, false, attempts, [], RewindToChunk))
  {
    RewindPointInPart(part.startOffset, offset, part.endOffset);
    LoopFromRequestExact(content, part, base, first, limit, attempts);
  }

  /** What the in-part resume keeps of a part file that is a prefix of the part's
      bytes, or longer than the part, is faithful. */
  lemma ResumeBaseFaithful(content: Bytes, part: FilePart, temp: Option<Bytes>)
    requires 0 <= part.startOffset && part.endOffset < |content| && part.Size() >= 1
    requires temp.Some? && |temp.value| <= part.Size() ==> IsPrefix(temp.value, content[part.startOffset..])
    ensures Faithful(content, part.startOffset, ResumePoint(part, temp).0)
  {
  }

  /** A faithful part file already holding the whole part is exactly the part. */
  lemma WholeOnDiskExact(content: Bytes, part: FilePart, base: Option<Bytes>)
    requires part.Size() >= 1 && part.endOffset < |content|
    requires Faithful(content, part.startOffset, base) && base.Some? && |base.value| == part.Size()
    ensures base == Some(content[part.startOffset .. part.endOffset + 1])
  {
    FaithfulCut(content, part, base);
    assert Content(base)[..part.Size()] == base.value;
  }

  /** The corrected loop started from a chunk request between the part's start and
      the end of a faithful part file. */
  lemma LoopFromRequestExact(content: Bytes, part: FilePart, base: Option<Bytes>, first: nat, limit: nat, attempts: seq<Attempt>)
    requires part.Size() >= 1 && 0 <= part.startOffset && part.endOffset < |content|
    requires Faithful(content, part.startOffset, base)
    requires part.startOffset <= first * CHUNK_SIZE <= part.startOffset + SizeOr0(base)
    requires HonestAttempts(content, first, limit, attempts)
    ensures ExactOutcome(content, part, RetryLoop(part, first * CHUNK_SIZE - part.startOffset, base, 0, false, attempts, [], RewindToChunk))
  {
    RequestWithinFile(content, part, base, first);
    HonestAttemptsDeliver(content, first, limit, attempts);
    RewindLoopExact(content, part, first * CHUNK_SIZE - part.startOffset, base, 0, false, attempts, []);
  }

  /** The rewind point lies inside the file, and within a faithful part file. */
  lemma RequestWithinFile(content: Bytes, part: FilePart, base: Option<Bytes>, first: nat)
    requires 0 <= part.startOffset <= part.endOffset < |content| && Faithful(content, part.startOffset, base)
    requires part.startOffset <= first * CHUNK_SIZE <= part.startOffset + SizeOr0(base)
    ensures first * CHUNK_SIZE <= |content|
    ensures base.None? ==> first * CHUNK_SIZE == part.startOffset
  {
    if base.Some? {
      assert IsPrefix(base.value, content[part.startOffset..]);
    }
  }

  /** For a part starting on a chunk boundary, the requested chunk starts inside the
      part and no later than the resume point. */
  lemma RewindPointInPart(start: int, offset: int, end: int)
    requires 0 <= start <= offset <= end && start % CHUNK_SIZE == 0
    ensures start <= ChunkRequest(offset, end).0 * CHUNK_SIZE <= offset
  {
    var first := ChunkRequest(offset, end).0;
    var m := start / CHUNK_SIZE;
    assert m * CHUNK_SIZE == start;
    assert m <= first;
  }

  /** `RunPart` past the in-part resume: the loop starts with no error counted. */
  lemma RunPartEntersLoop(part: FilePart, temp: Option<Bytes>, attempts: seq<Attempt>, mode: Resume)
    requires ResumePoint(part, temp).1 <= part.endOffset
    ensures var rp := ResumePoint(part, temp);
            RunPart(part, temp, attempts, mode)
              == RetryLoop(part, ChunkRequest(rp.1, part.endOffset).0 * CHUNK_SIZE - part.startOffset, rp.0, 0, false, attempts, [], mode)
  {
  }

  /** One turn of the loop that is not cut short by the retry budget or a stop. */
  lemma LoopStep(part: FilePart, keep: int, file: Option<Bytes>, retries: nat, attempts: seq<Attempt>, sleeps: seq<nat>, mode: Resume)
    requires part.Size() >= 1 && retries < MAX_RETRIES && !NextAttempt(attempts).stopBefore
    ensures var a := NextAttempt(attempts);
            var f := AppendChunks(if mode == RewindToChunk then Rewind(file, keep) else file, a.chunks);
            RetryLoop(part, keep, file, retries, false, attempts, sleeps, mode)
              == if Finishes(a.end, f, part) then WorkerOutcome(COMPLETED, Some(Content(f)[..part.Size()]), retries, sleeps, a.end == StopSeen)
                 else RetryLoop(part, keep, f, retries + Counted(a.end), a.end == StopSeen, Rest(attempts), sleeps + [Wait(a.end)], mode)
  {
  }

  /** An honest server streams a two-chunk file as its two chunks. */
  lemma TwoChunkStream(content: Bytes)
    requires |content| == 2 * CHUNK_SIZE
    ensures HonestStream(content, 0, 2) == [content[..CHUNK_SIZE], content[CHUNK_SIZE..]]
    ensures Flatten(HonestStream(content, 0, 2)) == content
  {
    var C := CHUNK_SIZE;
    assert HonestStream(content, 2, 0) == [];
    assert HonestStream(content, 1, 1) == [content[C..2 * C]];
    assert content[C..2 * C] == content[C..];
    HonestStreamBytes(content, 0, 2);
    assert content[0..2 * C] == content;
  }

  /** The first attempt of the duplicate scenario: one chunk, then an error. */
  lemma PartialFirstAttempt(content: Bytes, mode: Resume)
    requires |content| == 2 * CHUNK_SIZE
    ensures var part := FilePart(0, 0, 2 * CHUNK_SIZE - 1, DOWNLOADING);
            var a2 := Attempt(false, HonestStream(content, 0, 2), Exhausted);
            RunPart(part, None, [Attempt(false, [content[..CHUNK_SIZE]], Raised), a2], mode)
              == RetryLoop(part, 0, Some(content[..CHUNK_SIZE]), 1, false, [a2], [RETRY_DELAY_BASE], mode)
  {
    var C := CHUNK_SIZE;
    var part := FilePart(0, 0, 2 * C - 1, DOWNLOADING);
    var a1 := Attempt(false, [content[..C]], Raised);
    var a2 := Attempt(false, HonestStream(content, 0, 2), Exhausted);
    var attempts := [a1, a2];
    assert ResumePoint(part, None) == (None, 0);
    assert ChunkRequest(0, part.endOffset).0 == 0;
    RunPartEntersLoop(part, None, attempts, mode);
    assert NextAttempt(attempts) == a1 && Rest(attempts) == [a2];
    FlattenSingle(content[..C]);
    assert Content(None) + content[..C] == content[..C];
    assert Rewind(None, 0) == None;
    assert AppendChunks(None, a1.chunks) == Some(content[..C]);
    LoopStep(part, 0, None, 0, attempts, [], mode);
    assert !Finishes(a1.end, Some(content[..C]), part);
    assert [] + [RETRY_DELAY_BASE] == [RETRY_DELAY_BASE];
  }

  /** The retry loop as written, against an honest server: an attempt that dies
      after one chunk leaves that chunk in the part file, the next attempt streams
      the part again from its first chunk and appends it, and the part "completes"
      holding its first chunk twice. */
  lemma RetryAfterPartialAttemptDuplicates(content: Bytes)
    requires |content| == 2 * CHUNK_SIZE && content[0] != content[CHUNK_SIZE]
    ensures var part := FilePart(0, 0, 2 * CHUNK_SIZE - 1, DOWNLOADING);
            var attempts := [Attempt(false, [content[..CHUNK_SIZE]], Raised), Attempt(false, HonestStream(content, 0, 2), Exhausted)];
            var out := RunPart(part, None, attempts, AsWritten);
            && ChunkRequest(0, part.endOffset) == (0, 2)
            && HonestAttempts(content, 0, 2, attempts)
            && out.status == COMPLETED && out.temp.Some? && out.temp != Some(content)
  {
    var C := CHUNK_SIZE;
    var part := FilePart(0, 0, 2 * C - 1, DOWNLOADING);
    TwoChunkStream(content);
    var hs := HonestStream(content, 0, 2);
    var a2 := Attempt(false, hs, Exhausted);
    var attempts := [Attempt(false, [content[..C]], Raised), a2];
    assert IsPrefix(attempts[0].chunks, hs);
    assert ChunkRequest(0, part.endOffset) == (0, 2);
    PartialFirstAttempt(content, AsWritten);
    var f1 := Some(content[..C]);
    assert NextAttempt([a2]) == a2;
    LoopStep(part, 0, f1, 1, [a2], [RETRY_DELAY_BASE], AsWritten);
    var dup := content[..C] + content;
    assert AppendChunks(f1, hs) == Some(dup);
    assert Finishes(a2.end, Some(dup), part);
    assert dup[..2 * C][C] == content[0];
  }

  /** The same attempts with a rewind before each one: the part file ends up
      holding the file's bytes. */
  lemma RetryAfterPartialAttemptRewound(content: Bytes)
    requires |content| == 2 * CHUNK_SIZE
    ensures var part := FilePart(0, 0, 2 * CHUNK_SIZE - 1, DOWNLOADING);
            var attempts := [Attempt(false, [content[..CHUNK_SIZE]], Raised), Attempt(false, HonestStream(content, 0, 2), Exhausted)];
            RunPart(part, None, attempts, RewindToChunk).temp == Some(content)
  {
    var C := CHUNK_SIZE;
    var part := FilePart(0, 0, 2 * C - 1, DOWNLOADING);
    TwoChunkStream(content);
    var hs := HonestStream(content, 0, 2);
    var a2 := Attempt(false, hs, Exhausted);
    PartialFirstAttempt(content, RewindToChunk);
    var f1 := Some(content[..C]);
    assert NextAttempt([a2]) == a2;
    LoopStep(part, 0, f1, 1, [a2], [RETRY_DELAY_BASE], RewindToChunk);
    assert Rewind(f1, 0) == Some([]);
    assert [] + content == content;
    assert AppendChunks(Some([]), hs) == Some(content);
    assert Finishes(a2.end, Some(content), part);
    assert content[..2 * C] == content;
  }

  /** An honest server streams a file smaller than a chunk as one chunk. */
  lemma OneChunkStream(content: Bytes)
    requires |content| == 2
    ensures HonestStream(content, 0, 1) == [content]
    ensures Flatten(HonestStream(content, 0, 1)) == content
  {
    assert HonestStream(content, 1, 0) == [];
    assert content[0..2] == content;
    FlattenSingle(content);
  }

  /** The in-part resume of the scenario: one byte on disk, resumed at chunk 0. */
  lemma MisalignedEntry(content: Bytes, attempts: seq<Attempt>, mode: Resume)
    requires |content| == 2
    ensures var part := FilePart(0, 0, 1, DOWNLOADING);
            && ResumePoint(part, Some(content[..1])).1 == 1
            && ChunkRequest(1, part.endOffset) == (0, 1)
            && RunPart(part, Some(content[..1]), attempts, mode) == RetryLoop(part, 0, Some(content[..1]), 0, false, attempts, [], mode)
  {
    var part := FilePart(0, 0, 1, DOWNLOADING);
    assert ResumePoint(part, Some(content[..1])) == (Some(content[..1]), 1);
    assert ChunkRequest(1, 1) == (0, 1);
    RunPartEntersLoop(part, Some(content[..1]), attempts, mode);
  }

  /** The in-part resume as written: a part file that ends inside a chunk makes the
      stream restart at that chunk's first byte, and those bytes are appended after
      the ones already on disk. */
  lemma MisalignedResumeDuplicates(content: Bytes)
    requires |content| == 2 && content[0] != content[1]
    ensures var part := FilePart(0, 0, 1, DOWNLOADING);
            var attempts := [Attempt(false, HonestStream(content, 0, 1), Exhausted)];
            var out := RunPart(part, Some(content[..1]), attempts, AsWritten);
            && ChunkRequest(ResumePoint(part, Some(content[..1])).1, part.endOffset) == (0, 1)
            && HonestAttempts(content, 0, 1, attempts)
            && out.status == COMPLETED && out.temp.Some? && out.temp != Some(content)
  {
    var part := FilePart(0, 0, 1, DOWNLOADING);
    var temp := Some(content[..1]);
    OneChunkStream(content);
    var hs := HonestStream(content, 0, 1);
    var a := Attempt(false, hs, Exhausted);
    MisalignedEntry(content, [a], AsWritten);
    assert NextAttempt([a]) == a;
    LoopStep(part, 0, temp, 0, [a], [], AsWritten);
    var dup := content[..1] + content;
    assert AppendChunks(temp, hs) == Some(dup);
    assert Finishes(a.end, Some(dup), part);
    assert dup[..2][1] == content[0];
  }

  /** The same resume with the rewind to the chunk boundary: the part file ends up
      holding the file's bytes. */
  lemma MisalignedResumeRewound(content: Bytes)
    requires |content| == 2
    ensures var part := FilePart(0, 0, 1, DOWNLOADING);
            RunPart(part, Some(content[..1]), [Attempt(false, HonestStream(content, 0, 1), Exhausted)], RewindToChunk).temp == Some(content)
  {
    var part := FilePart(0, 0, 1, DOWNLOADING);
    var temp := Some(content[..1]);
    OneChunkStream(content);
    var hs := HonestStream(content, 0, 1);
    var a := Attempt(false, hs, Exhausted);
    MisalignedEntry(content, [a], RewindToChunk);
    assert NextAttempt([a]) == a;
    LoopStep(part, 0, temp, 0, [a], [], RewindToChunk);
    assert Rewind(temp, 0) == Some([]);
    assert [] + content == content;
    assert AppendChunks(Some([]), hs) == Some(content);
    assert Finishes(a.end, Some(content), part);
    assert content[..2] == content;
  }
}
