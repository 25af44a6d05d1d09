/**
 * The bounded admission queue (`NotificationQueue`): a FIFO of requests with
 * room for 100 entries and a count of requests dropped because it was full.
 * When a successful dequeue leaves the queue empty while that count is
 * non-zero, a summary request is appended and the count is reset, so a drop
 * is never silent.
 *
 * The pure step functions `EnqueueStep` and `DequeueStep` are the
 * specification; the class `NotificationQueue` updates its fields in place
 * and is proved against them. The lock of the source is not modelled: each
 * operation is one atomic step.
 */
module Queue {
  import opened Strings
  import opened Configuration

  const MaxQueueLength: nat := 100

  /** The abstract state: the queued requests, head first, and the skipped count. */
  datatype QueueState = QueueState(items: seq<Config>, skipped: nat)

  const Empty: QueueState := QueueState([], 0)

  /** The queue invariant: within capacity, and a pending skip count always has an entry ahead of it. */
  predicate Inv(q: QueueState)
  {
    |q.items| <= MaxQueueLength && (q.skipped > 0 ==> q.items != [])
  }

  /** The number of dequeues that succeed before the queue reports empty. */
  function Pending(q: QueueState): nat
  {
    |q.items| + (if q.skipped > 0 then 1 else 0)
  }

  /** The request appended after `n` requests were dropped. */
  function SkippedSummary(n: nat): Config
  {
    DefaultConfig.(
      message := Some(NatToString(n) + " notifications were skipped."),
      title := Some("Notification Queue"),
      time := Some("5"))
  }

  /** The summary carries a non-blank message, is shown for 5 seconds and is not important. */
  lemma SummaryIsShowable(n: nat)
    ensures !IsNullOrWhiteSpace(SkippedSummary(n).message)
    ensures ParseInt(SkippedSummary(n).time) == Some(5)
    ensures !SkippedSummary(n).important && !SkippedSummary(n).exit
  {
    var m := SkippedSummary(n).message.value;
    assert !IsWhiteSpace(m[0]);
    TrimNone("5");
  }

  /** `Enqueue`: append while below capacity, otherwise count the drop. */
  function EnqueueStep(q: QueueState, c: Config): (r: QueueState)
    ensures Inv(q) ==> Inv(r)
    ensures |r.items| + r.skipped == |q.items| + q.skipped + 1
    ensures r.items == q.items || r.items == q.items + [c]
    ensures r.items == q.items + [c] <==> |q.items| < MaxQueueLength
  {
    if |q.items| >= MaxQueueLength then q.(skipped := q.skipped + 1)
    else q.(items := q.items + [c])
  }

  /** The outcome of `TryDequeue`: the returned flag, the out value and the new state. */
  datatype Dequeued = Dequeued(ok: bool, config: Option<Config>, next: QueueState)

  /**
   * `TryDequeue`. The summary injection sits inside the `if` on a successful
   * dequeue (the comment under that `if` is not a statement), so it only
   * follows a dequeue that returned a request.
   */
  function DequeueStep(q: QueueState): (r: Dequeued)
    ensures r.ok <==> q.items != []
    ensures r.ok <==> r.config.Some?
    ensures r.ok ==> r.config.value == q.items[0]
    ensures !r.ok ==> r.next == q
    ensures r.ok ==> Pending(r.next) == Pending(q) - 1
    ensures Inv(q) ==> Inv(r.next)
  {
    if q.items == [] then Dequeued(false, None, q)
    else
      var head := q.items[0];
      var rest := q.items[1..];
      if rest == [] && q.skipped > 0 then
        Dequeued(true, Some(head), QueueState([SkippedSummary(q.skipped)], 0))
      else
        Dequeued(true, Some(head), q.(items := rest))
  }

  /**
   * The injection as a reading of the source's intent would place it: after
   * any dequeue, successful or not.
   */
  function DequeueInjectingAlways(q: QueueState): Dequeued
  {
    var (ok, config, rest) :=
      if q.items == [] then (false, None, q.items) else (true, Some(q.items[0]), q.items[1..]);
    if rest == [] && q.skipped > 0 then Dequeued(ok, config, QueueState([SkippedSummary(q.skipped)], 0))
    else Dequeued(ok, config, q.(items := rest))
  }

  /** Under the queue invariant the nesting of the injection makes no difference. */
  lemma InjectionNestingHarmless(q: QueueState)
    requires Inv(q)
    ensures DequeueStep(q) == DequeueInjectingAlways(q)
  {
  }

  /** Without the invariant it does: an empty queue with a pending count stays silent. */
  lemma InjectionNestingMatters()
    ensures DequeueStep(QueueState([], 1)) != DequeueInjectingAlways(QueueState([], 1))
  {
  }

  /** The index of the first important request, or -1. */
  function FirstImportant(items: seq<Config>): (k: int)
    ensures -1 <= k < |items|
    ensures k == -1 <==> forall i :: 0 <= i < |items| ==> !items[i].important
    ensures 0 <= k ==> items[k].important && forall i :: 0 <= i < k ==> !items[i].important
  {
    if items == [] then -1
    else if items[0].important then 0
    else
      var k := FirstImportant(items[1..]);
      if k == -1 then -1 else k + 1
  }

  /**
   * Dequeuing an unimportant head in front of an important request only
   * removes the head: the first important request moves up by one.
   */
  lemma DequeueBeforeImportant(q: QueueState)
    requires q.items != [] && !q.items[0].important
    ensures var k := FirstImportant(q.items);
      var next := DequeueStep(q).next;
      k >= 0 ==>
        k >= 1 && next == q.(items := q.items[1..]) &&
        FirstImportant(next.items) == k - 1 && next.items[k - 1..] == q.items[k..]
  {
    var k := FirstImportant(q.items);
    if k >= 0 {
      assert q.items[1..][k - 1..] == q.items[k..];
    }
  }

  /**
   * Dequeuing from a queue with no important request leaves none: the
   * skipped-count summary a dequeue may append is not important either.
   */
  lemma DequeueKeepsNoImportant(q: QueueState)
    requires q.items != [] && FirstImportant(q.items) < 0
    ensures FirstImportant(DequeueStep(q).next.items) < 0
  {
    var next := DequeueStep(q).next;
    if q.items[1..] == [] && q.skipped > 0 {
      assert next.items == [SkippedSummary(q.skipped)];
    } else {
      assert next.items == q.items[1..];
    }
  }

  // ---------------------------------------------------------------------------
  // Sequences of operations

  function EnqueueAll(q: QueueState, cs: seq<Config>): QueueState
    decreases |cs|
  {
    if cs == [] then q else EnqueueAll(EnqueueStep(q, cs[0]), cs[1..])
  }

  /** The requests returned by `n` successive dequeues and the state they leave. */
  function DequeueMany(q: QueueState, n: nat): (seq<Config>, QueueState)
    decreases n
  {
    if n == 0 then ([], q)
    else
      var d := DequeueStep(q);
      if !d.ok then ([], q)
      else
        var more := DequeueMany(d.next, n - 1);
        ([d.config.value] + more.0, more.1)
  }

  /** Enqueuing up to the capacity into a queue with nothing skipped only appends. */
  lemma {:induction false} EnqueueAllAppends(q: QueueState, cs: seq<Config>)
    requires |q.items| + |cs| <= MaxQueueLength
    ensures EnqueueAll(q, cs) == q.(items := q.items + cs)
    decreases |cs|
  {
    if cs != [] {
      EnqueueAllAppends(EnqueueStep(q, cs[0]), cs[1..]);
      assert q.items + [cs[0]] + cs[1..] == q.items + cs;
    }
  }

  /** Beyond the capacity every further request only adds to the skipped count. */
  lemma {:induction false} EnqueueAllWhenFull(q: QueueState, cs: seq<Config>)
    requires |q.items| >= MaxQueueLength
    ensures EnqueueAll(q, cs) == q.(skipped := q.skipped + |cs|)
    decreases |cs|
  {
    if cs != [] {
      EnqueueAllWhenFull(EnqueueStep(q, cs[0]), cs[1..]);
    }
  }

  /** FIFO: with nothing skipped, dequeuing drains the entries in order and leaves the queue empty. */
  lemma {:induction false} DrainInOrder(items: seq<Config>)
    ensures DequeueMany(QueueState(items, 0), |items|) == (items, Empty)
    decreases |items|
  {
    if items != [] {
      DrainInOrder(items[1..]);
      assert [items[0]] + items[1..] == items;
    }
  }

  /** Enqueue order is dequeue order for any sequence that fits. */
  lemma Fifo(cs: seq<Config>)
    requires |cs| <= MaxQueueLength
    ensures DequeueMany(EnqueueAll(Empty, cs), |cs|) == (cs, Empty)
  {
    EnqueueIntoEmpty(cs);
    DrainInOrder(cs);
  }

  /** Enqueuing requests that fit into an empty queue queues exactly them. */
  lemma EnqueueIntoEmpty(cs: seq<Config>)
    requires |cs| <= MaxQueueLength
    ensures EnqueueAll(Empty, cs) == QueueState(cs, 0)
  {
    var none: seq<Config> := [];
    EnqueueAllAppends(QueueState(none, 0), cs);
    assert none + cs == cs;
  }

  /** Draining a full queue that dropped `k > 0` requests yields its entries and then one summary. */
  lemma {:induction false} DrainWithSummary(items: seq<Config>, k: nat)
    requires items != [] && k > 0
    ensures DequeueMany(QueueState(items, k), |items| + 1) == (items + [SkippedSummary(k)], Empty)
    decreases |items|
  {
    var d := DequeueStep(QueueState(items, k));
    if |items| == 1 {
      var summary := QueueState([SkippedSummary(k)], 0);
      assert d.next == summary;
      var e := DequeueStep(summary);
      assert e.ok && e.config == Some(SkippedSummary(k)) && e.next == Empty;
      var more := DequeueMany(e.next, 0);
      assert more == ([], Empty);
      assert DequeueMany(summary, 1) == ([e.config.value] + more.0, more.1);
      assert [e.config.value] + more.0 == [SkippedSummary(k)];
      assert items == [items[0]];
    } else {
      assert d.next == QueueState(items[1..], k);
      DrainWithSummary(items[1..], k);
      assert [items[0]] + (items[1..] + [SkippedSummary(k)]) == items + [SkippedSummary(k)];
    }
  }

  /**
   * Overflow is reported once: after enqueuing `100 + k` requests into an empty
   * queue, 101 dequeues return the first 100 in order and then the summary
   * "k notifications were skipped.", leaving the queue empty and the count 0.
   */
  lemma Overflow(cs: seq<Config>)
    requires |cs| > MaxQueueLength
    ensures EnqueueAll(Empty, cs) == QueueState(cs[..MaxQueueLength], |cs| - MaxQueueLength)
    ensures var front := cs[..MaxQueueLength];
      DequeueMany(EnqueueAll(Empty, cs), |front| + 1) == (front + [SkippedSummary(|cs| - MaxQueueLength)], Empty)
  {
    var front, back := cs[..MaxQueueLength], cs[MaxQueueLength..];
    assert cs == front + back;
    EnqueueAllSplit(Empty, front, back);
    EnqueueIntoEmpty(front);
    EnqueueAllWhenFull(QueueState(front, 0), back);
    assert EnqueueAll(Empty, cs) == QueueState(front, |back|);
    DrainWithSummary(front, |back|);
  }

  lemma {:induction false} EnqueueAllSplit(q: QueueState, a: seq<Config>, b: seq<Config>)
    ensures EnqueueAll(q, a + b) == EnqueueAll(EnqueueAll(q, a), b)
    decreases |a|
  {
    if a != [] {
      assert (a + b)[1..] == a[1..] + b;
      EnqueueAllSplit(EnqueueStep(q, a[0]), a[1..], b);
    } else {
      assert a + b == b;
    }
  }

  // ---------------------------------------------------------------------------
  // The queue object

  class NotificationQueue {
    var items: seq<Config>
    var skipped: nat

    function State(): QueueState
      reads this
    {
      QueueState(items, skipped)
    }

    predicate Valid()
      reads this
    {
      Inv(State())
    }

    constructor ()
      ensures Valid() && State() == Empty
    {
      items := [];
      skipped := 0;
    }

    /** `Enqueue`: append below capacity, otherwise count the drop; nothing else changes. */
    method Enqueue(c: Config)
      requires Valid()
      modifies this
      ensures Valid()
      ensures State() == EnqueueStep(old(State()), c)
      ensures old(|items|) >= MaxQueueLength ==> items == old(items) && skipped == old(skipped) + 1
      ensures old(|items|) < MaxQueueLength ==> items == old(items) + [c] && skipped == old(skipped)
    {
      if |items| >= MaxQueueLength {
        skipped := skipped + 1;
        return;
      }
      items := items + [c];
    }

    /** `TryDequeue`: pop the head; inject the summary when that emptied the queue with drops pending. */
    method TryDequeue() returns (ok: bool, config: Option<Config>)
      requires Valid()
      modifies this
      ensures Valid()
      ensures Dequeued(ok, config, State()) == DequeueStep(old(State()))
      ensures ok == (old(items) != [])
      ensures ok ==> config == Some(old(items)[0])
      ensures !ok ==> config == None && items == old(items) && skipped == old(skipped)
    {
      if items == [] {
        ok, config := false, None;
      } else {
        ok, config := true, Some(items[0]);
        items := items[1..];
      }
      if ok && config.Some? {
        if items == [] && skipped > 0 {
          items := items + [SkippedSummary(skipped)];
          skipped := 0;
        }
      }
    }

    /** `IsEmpty`. */
    function IsEmpty(): (b: bool)
      reads this
      ensures Valid() ==> (b <==> Pending(State()) == 0)
      ensures b <==> items == []
    {
      items == []
    }
  }
}
