/** The downloader's fixed settings and the name of a task's progress record. */
module Config {
  import opened Decimal
  import Paths

  /** Bytes per `stream_media` chunk (the Telegram API serves 1 MiB pieces). */
  const CHUNK_SIZE: nat := 1024 * 1024

  /** Bytes per part, each handled by one worker. */
  const PART_SIZE: nat := 10 * 1024 * 1024

  /** Counted errors a part worker tolerates before giving up. */
  const MAX_RETRIES: nat := 50

  /** Seconds a part worker sleeps after a counted error. */
  const RETRY_DELAY_BASE: nat := 5

  /** Directory, under the download directory, for progress records and part files. */
  const PROGRESS_DIR: string := ".progress"

  /** `f"task_{chat_id}_{message_id}.json"`: the chat id comes first. */
  function ProgressFileName(messageId: int, chatId: int): (name: string)
    ensures |name| > 5 && name[0] == 't' && name[|name| - 5..] == ".json"
  {
    "task_" + IntToString(chatId) + "_" + IntToString(messageId) + ".json"
  }

  /** `get_progress_file_path`: DOWNLOAD_DIR / PROGRESS_DIR / the record's name. */
  function ProgressFilePath(downloadDir: string, messageId: int, chatId: int): (path: string)
    ensures |path| > 5 && path[|path| - 5..] == ".json"
  {
    var name := ProgressFileName(messageId, chatId);
    var path := Paths.Join(Paths.Join(downloadDir, PROGRESS_DIR), name);
    JoinKeepsJson(Paths.Join(downloadDir, PROGRESS_DIR), name);
    path
  }

  lemma JoinKeepsJson(dir: string, name: string)
    requires |name| > 5 && name[|name| - 5..] == ".json"
    ensures var path := Paths.Join(dir, name); |path| > 5 && path[|path| - 5..] == ".json"
  {
    SuffixOfSuffix(Paths.Join(dir, name), name, 5);
  }

  lemma SuffixOfSuffix(s: string, t: string, n: nat)
    requires |t| <= |s| && s[|s| - |t|..] == t && n <= |t|
    ensures s[|s| - n..] == t[|t| - n..]
  {
    assert s[|s| - n..] == s[|s| - |t|..][|t| - n..];
  }

  predicate NoUnderscore(s: string) {
    forall i :: 0 <= i < |s| ==> s[i] != '_'
  }

  lemma DecimalHasNoUnderscore(i: int)
    ensures NoUnderscore(IntToString(i))
  {
  }

  lemma Separated(a: string, b: string)
    ensures (a + "_" + b)[|a|] == '_'
    ensures forall k :: 0 <= k < |a| ==> (a + "_" + b)[k] == a[k]
  {
  }

  /** A '_' after an underscore-free field marks where that field ends. */
  lemma UnderscoreSplit(a1: string, b1: string, a2: string, b2: string)
    requires NoUnderscore(a1) && NoUnderscore(a2)
    requires a1 + "_" + b1 == a2 + "_" + b2
    ensures a1 == a2 && b1 == b2
  {
    var s := a1 + "_" + b1;
    Separated(a1, b1);
    Separated(a2, b2);
    if |a1| != |a2| {
      assert false;
    }
    assert a1 == s[..|a1|];
    assert b1 == s[|a1| + 1..];
  }

  lemma StripAffixes(r1: string, r2: string)
    requires "task_" + r1 + ".json" == "task_" + r2 + ".json"
    ensures r1 == r2
  {
    var n := "task_" + r1 + ".json";
    assert r1 == n[5..|n| - 5];
    assert r2 == ("task_" + r2 + ".json")[5..|n| - 5];
  }

  lemma NameShape(m: int, c: int)
    ensures ProgressFileName(m, c) == "task_" + (IntToString(c) + "_" + IntToString(m)) + ".json"
  {
  }

  /** Distinct (message, chat) identities get distinct record names, because the
      decimal text of an integer never contains the '_' that separates them. */
  lemma {:induction false} ProgressFileNameInjective(m1: int, c1: int, m2: int, c2: int)
    requires ProgressFileName(m1, c1) == ProgressFileName(m2, c2)
    ensures m1 == m2 && c1 == c2
  {
    var r1 := IntToString(c1) + "_" + IntToString(m1);
    var r2 := IntToString(c2) + "_" + IntToString(m2);
    NameShape(m1, c1);
    NameShape(m2, c2);
    StripAffixes(r1, r2);
    DecimalHasNoUnderscore(c1);
    DecimalHasNoUnderscore(c2);
    UnderscoreSplit(IntToString(c1), IntToString(m1), IntToString(c2), IntToString(m2));
    IntToStringInjective(c1, c2);
    IntToStringInjective(m1, m2);
  }

  /** Within one download directory, two identities share a progress record
      only if they are the same identity. */
  lemma ProgressFilePathInjective(dir: string, m1: int, c1: int, m2: int, c2: int)
    requires ProgressFilePath(dir, m1, c1) == ProgressFilePath(dir, m2, c2)
    ensures m1 == m2 && c1 == c2
  {
    Paths.JoinInjective(Paths.Join(dir, PROGRESS_DIR), ProgressFileName(m1, c1), ProgressFileName(m2, c2));
    ProgressFileNameInjective(m1, c1, m2, c2);
  }

  /** Every part starts on a chunk boundary, because a part is ten chunks. */
  lemma PartStartsAreChunkAligned(i: nat)
    ensures PART_SIZE == 10 * CHUNK_SIZE
    ensures (i * PART_SIZE) % CHUNK_SIZE == 0
  {
    assert i * PART_SIZE == (10 * i) * CHUNK_SIZE;
  }
}
