/** The older single-stream downloader: its message filter, the file name it
    saves to, its size-dependent retry budget, and its attempt loop with a growing
    wait between attempts. The download call itself is a parameter: what each
    attempt produced. */
module Legacy {
  import opened Wrappers
  import opened Decimal

  const MIB: nat := 1024 * 1024

  /** The media fields of a message that the legacy handler reads. */
  datatype LegacyMedia = LegacyMedia(fileName: Option<string>, fileSize: nat)

  datatype LegacyMessage = LegacyMessage(id: int, fromMe: bool, video: Option<LegacyMedia>, document: Option<LegacyMedia>)

  /** Message filters, and Python's `or` on them. A filter object is always truthy,
      so `a or b` is `a`. */
  datatype Filter = VideoFilter | DocumentFilter | MeFilter | AndFilter(a: Filter, b: Filter) | OrFilter(a: Filter, b: Filter)

  function PyOr(a: Filter, b: Filter): Filter {
    a
  }

  predicate Passes(f: Filter, m: LegacyMessage) {
    match f
    case VideoFilter => m.video.Some?
    case DocumentFilter => m.document.Some?
    case MeFilter => m.fromMe
    case AndFilter(a, b) => Passes(a, m) && Passes(b, m)
    case OrFilter(a, b) => Passes(a, m) || Passes(b, m)
  }

  /** `filters.me & (filters.video or filters.document)`, as written. */
  const HANDLER_FILTER_AS_WRITTEN: Filter := AndFilter(MeFilter, PyOr(VideoFilter, DocumentFilter))

  /** `filters.me & (filters.video | filters.document)`: what the handler's own
      `message.video or message.document` expects to receive. */
  const HANDLER_FILTER: Filter := AndFilter(MeFilter, OrFilter(VideoFilter, DocumentFilter))

  /** The filter as written lets through exactly the caller's videos: a document
      never reaches the handler. */
  lemma AsWrittenFilterIsVideoOnly(m: LegacyMessage)
    ensures Passes(HANDLER_FILTER_AS_WRITTEN, m) <==> m.fromMe && m.video.Some?
  {
  }

  /** A concrete case: the caller's own document without a video is dropped by the
      filter as written and accepted by the corrected one. */
  lemma DocumentDropped()
    ensures var m := LegacyMessage(1, true, None, Some(LegacyMedia(Some("a.mkv"), 5)));
            !Passes(HANDLER_FILTER_AS_WRITTEN, m) && Passes(HANDLER_FILTER, m)
  {
  }

  /** The corrected filter lets through the caller's messages with a video or a
      document: exactly those for which the handler finds media. */
  lemma FilterMatchesHandler(m: LegacyMessage)
    ensures Passes(HANDLER_FILTER, m) <==> m.fromMe && HandlerMedia(m).Some?
  {
    assert Passes(OrFilter(VideoFilter, DocumentFilter), m) <==> m.video.Some? || m.document.Some?;
  }

  /** `message.video or message.document`. */
  function HandlerMedia(m: LegacyMessage): (r: Option<LegacyMedia>)
    ensures r.None? <==> m.video.None? && m.document.None?
    ensures m.video.Some? ==> r == m.video
  {
    if m.video.Some? then m.video else m.document
  }

  /** The name the file is saved under: the media's own name, or
      `video_<message id>.mp4` when it has none or an empty one. */
  function LegacyFileName(m: LegacyMessage, media: LegacyMedia): (name: string)
    ensures media.fileName.Some? && media.fileName.value != "" ==> name == media.fileName.value
    ensures media.fileName.None? || media.fileName.value == "" ==>
      |name| >= 10 && name[..6] == "video_" && name[|name| - 4..] == ".mp4" && name[6..|name| - 4] == IntToString(m.id)
  {
    var fallback := "video_" + IntToString(m.id) + ".mp4";
    if media.fileName.Some? && media.fileName.value != "" then media.fileName.value else fallback
  }

  /** The retry budget: 5 attempts below 100 MiB, 15 below 1024 MiB, 50 from
      there on. The size in MiB is a float, but the comparisons against whole MiB
      counts are exact. */
  function MaxRetries(fileSize: nat): (n: nat)
    ensures n in {5, 15, 50}
    ensures n == 5 <==> fileSize < 100 * MIB
    ensures n == 50 <==> fileSize >= 1024 * MIB
  {
    if fileSize < 100 * MIB then 5 else if fileSize < 1024 * MIB then 15 else 50
  }

  /** A larger file never gets a smaller budget. */
  lemma MaxRetriesMonotone(a: nat, b: nat)
    requires a <= b
    ensures MaxRetries(a) <= MaxRetries(b)
  {
  }

  /** The wait after failed attempt `k` (counting from 1): `min(5 + 2k, 30)`. */
  function BackOff(k: nat): (w: nat)
    ensures w <= 30 && w >= 5
    ensures k >= 1 ==> w >= 7
  {
    if 5 + 2 * k < 30 then 5 + 2 * k else 30
  }

  /** The wait grows with the attempt number and levels off at 30 seconds from
      the 13th attempt on. */
  lemma BackOffMonotone(j: nat, k: nat)
    requires j <= k
    ensures BackOff(j) <= BackOff(k)
    ensures k >= 13 ==> BackOff(k) == 30
    ensures k < 13 ==> BackOff(k) < 30
  {
  }

  /** What one `download_media` attempt did: returned a file of some size (or no
      usable file), raised `FloodWait` with a wait, or raised anything else. */
  datatype AttemptResult = Saved(size: Option<nat>) | FloodWaited(seconds: nat) | Failed

  function ResultAt(results: seq<AttemptResult>, k: nat): AttemptResult {
    if k < |results| then results[k] else Failed
  }

  /** The success test: the returned file exists and has the declared size. */
  predicate Complete(r: AttemptResult, fileSize: nat) {
    r.Saved? && r.size == Some(fileSize)
  }

  /** The sleep after attempt `k` (from 1) when it did not succeed: a `FloodWait`
      sleeps what it asks and skips the back-off. */
  function WaitAfter(r: AttemptResult, k: nat): nat {
    if r.FloodWaited? then r.seconds else BackOff(k)
  }

  /** The attempt loop of the legacy handler. It returns whether a download
      succeeded, how many attempts were made, and the sleeps in between, in order.
      A `FloodWait` on the last attempt still sleeps; any other failure of the last
      attempt does not. */
  method LegacyDownload(fileSize: nat, results: seq<AttemptResult>) returns (success: bool, used: nat, waits: seq<nat>)
    ensures 1 <= used <= MaxRetries(fileSize)
    ensures success <==> exists k :: 0 <= k < MaxRetries(fileSize) && Complete(ResultAt(results, k), fileSize)
    ensures success ==> Complete(ResultAt(results, used - 1), fileSize)
    ensures forall k :: 0 <= k < used - 1 ==> !Complete(ResultAt(results, k), fileSize)
    ensures !success ==> used == MaxRetries(fileSize)
    ensures |waits| == if !success && ResultAt(results, used - 1).FloodWaited? then used else used - 1
    ensures forall j :: 0 <= j < |waits| ==> waits[j] == WaitAfter(ResultAt(results, j), j + 1)
  {
    var maxRetries := MaxRetries(fileSize);
    var attempt := 1;
    success := false;
    waits := [];
    while attempt <= maxRetries
      invariant 1 <= attempt <= maxRetries + 1
      invariant forall k :: 0 <= k < attempt - 1 ==> !Complete(ResultAt(results, k), fileSize)
      invariant |waits| == attempt - 1
      invariant forall j :: 0 <= j < |waits| ==> waits[j] == WaitAfter(ResultAt(results, j), j + 1)
      invariant attempt == maxRetries + 1 ==> ResultAt(results, maxRetries - 1).FloodWaited?
      decreases maxRetries + 1 - attempt
    {
      var r := ResultAt(results, attempt - 1);
      if Complete(r, fileSize) {
        success := true;
        used := attempt;
        return;
      }
      if r.FloodWaited? {
        waits := waits + [r.seconds];
      } else if attempt < maxRetries {
        waits := waits + [BackOff(attempt)];
      } else {
        used := attempt;
        return;
      }
      attempt := attempt + 1;
    }
    used := maxRetries;
  }
}
