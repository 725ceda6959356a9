/** `TaskQueue`: messages wait in a list and are downloaded one at a time, first
    in first out, by a single drain guarded by `is_running`. Whether each download
    raises is a parameter: `raises[k]` for the `k`th download of a drain (none
    raises past the end of the list). */
module TaskQueue {

  datatype Queue<M> = Queue(pending: seq<M>, isRunning: bool)

  /** What one call of `process_queue` did: the queue it left, the messages it
      handed to `download` in order, and whether the last of them raised. */
  datatype Drain<M> = Drain(queue: Queue<M>, downloaded: seq<M>, raised: bool)

  function Raises(raises: seq<bool>, k: nat): bool {
    k < |raises| && raises[k]
  }

  /** `add_task`: the message joins the end of the list. */
  function AddTask<M>(q: Queue<M>, m: M): (r: Queue<M>)
    ensures |r.pending| == |q.pending| + 1 && r.pending[..|q.pending|] == q.pending && r.pending[|q.pending|] == m
    ensures r.isRunning == q.isRunning
  {
    q.(pending := q.pending + [m])
  }

  /** Several `add_task` calls in a row. */
  function AddAll<M>(q: Queue<M>, ms: seq<M>): (r: Queue<M>)
    decreases |ms|
  {
    if |ms| == 0 then q else AddAll(AddTask(q, ms[0]), ms[1..])
  }

  /** Messages wait in the order they were added, after those already waiting. */
  lemma {:induction false} AddAllAppends<M>(q: Queue<M>, ms: seq<M>)
    ensures AddAll(q, ms) == q.(pending := q.pending + ms)
    decreases |ms|
  {
    if |ms| > 0 {
      AddAllAppends(AddTask(q, ms[0]), ms[1..]);
      assert q.pending + [ms[0]] + ms[1..] == q.pending + ms;
    }
  }

  /** `process_queue` as written: a call while a drain runs does nothing;
      otherwise `is_running` is set and messages are popped from the front and
      downloaded until none is left. There is no `try`/`finally`: a download that
      raises ends the drain with `is_running` still set. */
  function ProcessQueueAsWritten<M>(q: Queue<M>, raises: seq<bool>): (r: Drain<M>)
    ensures q.isRunning ==> r == Drain(q, [], false)
    ensures !q.isRunning ==> r.downloaded + r.queue.pending == q.pending
    ensures !q.isRunning ==> (r.queue.isRunning <==> r.raised)
  {
    if q.isRunning then Drain(q, [], false) else PopAll(q.pending, raises, [])
  }

  /** The loop of the drain as written, with `done` already downloaded. */
  function PopAll<M>(pending: seq<M>, raises: seq<bool>, done: seq<M>): (r: Drain<M>)
    ensures r.downloaded + r.queue.pending == done + pending
    ensures r.queue.isRunning <==> r.raised
    ensures !r.raised ==> r.queue.pending == []
    decreases |pending|
  {
    if |pending| == 0 then Drain(Queue([], false), done, false)
    else if Raises(raises, |done|) then Drain(Queue(pending[1..], true), done + [pending[0]], true)
    else
      var r := PopAll(pending[1..], raises, done + [pending[0]]);
      assert done + [pending[0]] + pending[1..] == done + pending;
      r
  }

  /** The corrected `process_queue`: the loop inside `try`/`finally`, so the
      drain always ends with `is_running` cleared. A download that raises still
      ends the drain, leaving the messages after it waiting for the next call. */
  method ProcessQueue<M>(q: Queue<M>, raises: seq<bool>) returns (r: Drain<M>)
    ensures q.isRunning ==> r == Drain(q, [], false)
    ensures !q.isRunning ==> !r.queue.isRunning && r.downloaded + r.queue.pending == q.pending
    ensures !q.isRunning && !r.raised ==>
      r.downloaded == q.pending && r.queue.pending == [] && forall k :: 0 <= k < |q.pending| ==> !Raises(raises, k)
    ensures !q.isRunning && r.raised ==>
      |r.downloaded| > 0 && Raises(raises, |r.downloaded| - 1) && forall k :: 0 <= k < |r.downloaded| - 1 ==> !Raises(raises, k)
  {
    if q.isRunning {
      return Drain(q, [], false);
    }
    var pending := q.pending;
    var done: seq<M> := [];
    var raised := false;
    while |pending| > 0 && !raised
      invariant done + pending == q.pending
      invariant forall k :: 0 <= k < |done| - (if raised then 1 else 0) ==> !Raises(raises, k)
      invariant raised ==> |done| > 0 && Raises(raises, |done| - 1)
      decreases |pending|, !raised
    {
      var m := pending[0];
      raised := Raises(raises, |done|);
      done := done + [m];
      pending := pending[1..];
    }
    r := Drain(Queue(pending, false), done, raised);
  }

  /** When no download raises, the drain as written and the corrected one agree:
      every waiting message is downloaded in order, the list is left empty and
      `is_running` cleared. */
  lemma {:induction false} DrainWithoutRaise<M>(pending: seq<M>, raises: seq<bool>, done: seq<M>)
    requires forall k :: |done| <= k < |done| + |pending| ==> !Raises(raises, k)
    ensures PopAll(pending, raises, done) == Drain(Queue([], false), done + pending, false)
    decreases |pending|
  {
    if |pending| > 0 {
      DrainWithoutRaise(pending[1..], raises, done + [pending[0]]);
      assert done + [pending[0]] + pending[1..] == done + pending;
    } else {
      assert done + pending == done;
    }
  }

  /** Once a download raises in the drain as written, `is_running` stays set: every
      later call does nothing, whatever is added, and the messages left waiting are
      never downloaded. */
  lemma StrandedAfterRaise<M>(q: Queue<M>, raises: seq<bool>, added: seq<M>, later: seq<bool>)
    requires ProcessQueueAsWritten(q, raises).raised
    ensures var left := ProcessQueueAsWritten(q, raises).queue;
            var r := ProcessQueueAsWritten(AddAll(left, added), later);
            && r.downloaded == [] && r.queue == AddAll(left, added) && r.queue.isRunning
  {
    var left := ProcessQueueAsWritten(q, raises).queue;
    AddAllAppends(left, added);
  }

  /** A concrete case: two messages waiting and the first download raising. The
      second is left waiting with `is_running` set, so it is never downloaded. */
  lemma FirstRaiseStrandsSecond<M>(a: M, b: M)
    ensures var r := ProcessQueueAsWritten(Queue([a, b], false), [true]);
            && r.raised && r.downloaded == [a] && r.queue == Queue([b], true)
  {
    assert [a, b][1..] == [b];
  }
}
