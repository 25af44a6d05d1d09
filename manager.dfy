/**
 * The multi-slot display scheduler (`NotificationManager`): a list of active
 * banners stacked on screen with a fixed spacing, fed from the queue while
 * fewer than `MaxNotificationsOnScreen` banners are up.
 *
 * A banner is reduced to what the scheduler reads and writes: an identity
 * (the object reference of the source), its request, its height, its
 * stacking offset (what `UpdateOffset` records) and whether it is disposed.
 * The Do-Not-Disturb query and the height a new banner takes after `SetData`
 * are parameters. The lock is not modelled: each operation is one atomic step.
 */
module Manager {
  import opened Strings
  import opened Configuration
  import opened Queue

  /** The vertical gap between two stacked banners. */
  const Spacing: int := 10

  datatype Banner = Banner(id: nat, config: Config, height: int, offset: int, disposed: bool)

  predicate AllLive(bs: seq<Banner>)
  {
    forall i :: 0 <= i < |bs| ==> !bs[i].disposed
  }

  function Ids(bs: seq<Banner>): (r: seq<nat>)
    ensures |r| == |bs|
    ensures forall i :: 0 <= i < |bs| ==> r[i] == bs[i].id
  {
    seq(|bs|, i requires 0 <= i < |bs| => bs[i].id)
  }

  predicate DistinctIds(bs: seq<Banner>)
  {
    forall i, j :: 0 <= i < j < |bs| ==> bs[i].id != bs[j].id
  }

  /** The number of banners in `bs` that are not disposed. */
  function CountLive(bs: seq<Banner>): (n: nat)
    ensures n <= |bs|
  {
    if bs == [] then 0
    else CountLive(bs[..|bs| - 1]) + (if bs[|bs| - 1].disposed then 0 else 1)
  }

  /** The number of banners in `bs` that are not disposed and are not banner `id`. */
  function CountLiveExcept(bs: seq<Banner>, id: nat): (n: nat)
    ensures n <= CountLive(bs)
  {
    if bs == [] then 0
    else CountLiveExcept(bs[..|bs| - 1], id) + (if bs[|bs| - 1].disposed || bs[|bs| - 1].id == id then 0 else 1)
  }

  lemma {:induction false} CountLiveOfAllLive(bs: seq<Banner>)
    requires AllLive(bs)
    ensures CountLive(bs) == |bs|
  {
    if bs != [] {
      CountLiveOfAllLive(bs[..|bs| - 1]);
    }
  }

  lemma {:induction false} CountLiveExceptAbsent(bs: seq<Banner>, id: nat)
    requires id !in Ids(bs)
    ensures CountLiveExcept(bs, id) == CountLive(bs)
  {
    if bs != [] {
      var init := bs[..|bs| - 1];
      assert Ids(init) == Ids(bs)[..|bs| - 1];
      CountLiveExceptAbsent(init, id);
    }
  }

  /** Two lists with the same disposed flags have the same live count. */
  lemma {:induction false} CountLiveSameFlags(a: seq<Banner>, b: seq<Banner>)
    requires |a| == |b|
    requires forall i :: 0 <= i < |a| ==> a[i].disposed == b[i].disposed
    ensures CountLive(a) == CountLive(b)
  {
    if a != [] {
      CountLiveSameFlags(a[..|a| - 1], b[..|b| - 1]);
    }
  }

  /** `_activeBanners.RemoveAll(banner => banner.IsDisposed)`. */
  function RemoveDisposed(bs: seq<Banner>): (r: seq<Banner>)
    ensures |r| == CountLive(bs)
    ensures AllLive(r)
  {
    if bs == [] then []
    else
      var rest := RemoveDisposed(bs[..|bs| - 1]);
      if bs[|bs| - 1].disposed then rest else rest + [bs[|bs| - 1]]
  }

  /**
   * `RemoveAll` keeps the live banners in their relative order: the live
   * banner at index `i` lands at the position given by the number of live
   * banners before it (and, by the length, every position is so filled).
   */
  lemma {:induction false} RemoveDisposedKeepsOrder(bs: seq<Banner>)
    ensures forall i {:trigger bs[i]} :: 0 <= i < |bs| && !bs[i].disposed ==>
              CountLive(bs[..i]) < |RemoveDisposed(bs)| && RemoveDisposed(bs)[CountLive(bs[..i])] == bs[i]
  {
    if bs != [] {
      var init := bs[..|bs| - 1];
      RemoveDisposedKeepsOrder(init);
      forall i | 0 <= i < |bs| && !bs[i].disposed
        ensures CountLive(bs[..i]) < |RemoveDisposed(bs)| && RemoveDisposed(bs)[CountLive(bs[..i])] == bs[i]
      {
        if i < |init| {
          assert init[i] == bs[i] && init[..i] == bs[..i];
        } else {
          assert bs[..i] == init;
        }
      }
    }
  }

  /** Removing disposed banners from a list that has none changes nothing. */
  lemma {:induction false} RemoveDisposedOfAllLive(bs: seq<Banner>)
    requires AllLive(bs)
    ensures RemoveDisposed(bs) == bs
  {
    if bs != [] {
      RemoveDisposedOfAllLive(bs[..|bs| - 1]);
    }
  }

  /** Removing disposed banners twice is removing them once. */
  lemma RemoveDisposedIdempotent(bs: seq<Banner>)
    ensures RemoveDisposed(RemoveDisposed(bs)) == RemoveDisposed(bs)
  {
    RemoveDisposedOfAllLive(RemoveDisposed(bs));
  }

  // ---------------------------------------------------------------------------
  // Stacking offsets

  /**
   * `n` steps of `step`, added up one at a time as the offset loops do;
   * `ScaledIsProduct` shows it is `n * step`.
   */
  function Scaled(n: nat, step: int): int
  {
    if n == 0 then 0 else Scaled(n - 1, step) + step
  }

  lemma {:induction false} ScaledIsProduct(n: nat, step: int)
    ensures Scaled(n, step) == n * step
  {
    if n > 0 {
      ScaledIsProduct(n - 1, step);
    }
  }

  /** The distance between two stacked banners: the first banner's height plus the spacing. */
  function StepOf(bs: seq<Banner>, fallback: int): int
  {
    if bs == [] then fallback + Spacing else bs[0].height + Spacing
  }

  /**
   * `bs[i]`, named so that the stacking quantifier below fires only where a
   * proof mentions a banner through it, not on every banner term.
   */
  function At(bs: seq<Banner>, i: nat): Banner
    requires i < |bs|
  {
    bs[i]
  }

  /** Every live banner sits `step` times the number of live banners before it. */
  predicate StackedBy(bs: seq<Banner>, step: int)
  {
    forall i {:trigger At(bs, i)} :: 0 <= i < |bs| ==>
      At(bs, i).disposed || At(bs, i).offset == Scaled(CountLive(bs[..i]), step)
  }

  predicate Stacked(bs: seq<Banner>)
  {
    bs == [] || StackedBy(bs, bs[0].height + Spacing)
  }

  /** The offsets `RepositionBanners` gives, walking the list from the front. */
  function ReflowWith(bs: seq<Banner>, step: int): (r: seq<Banner>)
    ensures |r| == |bs|
  {
    if bs == [] then []
    else
      var init := bs[..|bs| - 1];
      var last := bs[|bs| - 1];
      ReflowWith(init, step) + [if last.disposed then last else last.(offset := Scaled(CountLive(init), step))]
  }

  /** Banner by banner: a live banner gets one step per live banner before it; a disposed one keeps its offset. */
  lemma {:induction false} ReflowWithAt(bs: seq<Banner>, step: int)
    ensures forall i {:trigger ReflowWith(bs, step)[i]} :: 0 <= i < |bs| ==>
              ReflowWith(bs, step)[i] == bs[i].(offset := if bs[i].disposed then bs[i].offset else Scaled(CountLive(bs[..i]), step))
  {
    if bs != [] {
      var init := bs[..|bs| - 1];
      ReflowWithAt(init, step);
      assert forall i :: 0 <= i < |init| ==> init[..i] == bs[..i];
    }
  }

  /** Counting the live banners of a prefix one banner further. */
  lemma CountLiveStep(bs: seq<Banner>, i: nat)
    requires i < |bs|
    ensures CountLive(bs[..i + 1]) == CountLive(bs[..i]) + (if bs[i].disposed then 0 else 1)
  {
    assert bs[..i + 1][..i] == bs[..i];
  }

  function Reflow(bs: seq<Banner>): seq<Banner>
  {
    if bs == [] then [] else ReflowWith(bs, bs[0].height + Spacing)
  }

  /** Reflowing changes offsets only, and afterwards the live banners are stacked. */
  lemma ReflowStacked(bs: seq<Banner>)
    ensures |Reflow(bs)| == |bs| && Ids(Reflow(bs)) == Ids(bs)
    ensures forall i :: 0 <= i < |bs| ==> Reflow(bs)[i] == bs[i].(offset := Reflow(bs)[i].offset)
    ensures Stacked(Reflow(bs))
  {
    var r := Reflow(bs);
    if bs != [] {
      ReflowWithAt(bs, bs[0].height + Spacing);
      forall i | 0 <= i < |bs| && !r[i].disposed
        ensures r[i].offset == Scaled(CountLive(r[..i]), r[0].height + Spacing)
      {
        CountLiveSameFlags(r[..i], bs[..i]);
      }
    }
  }

  /**
   * A stacked list is gap-free: in list order, the live banners have the
   * offsets 0, step, 2 step, ...
   */
  lemma {:induction false} StackedGapFree(bs: seq<Banner>, step: int)
    requires StackedBy(bs, step)
    ensures forall k :: 0 <= k < |RemoveDisposed(bs)| ==> RemoveDisposed(bs)[k].offset == Scaled(k, step)
  {
    if bs != [] {
      var init := bs[..|bs| - 1];
      forall i | 0 <= i < |init|
        ensures At(init, i).disposed || At(init, i).offset == Scaled(CountLive(init[..i]), step)
      {
        assert At(init, i) == At(bs, i) && init[..i] == bs[..i];
      }
      StackedGapFree(init, step);
      assert At(bs, |bs| - 1) == bs[|bs| - 1] && bs[..|bs| - 1] == init;
    }
  }

  /** A banner placed after all the live banners of a stacked list keeps it stacked. */
  lemma StackedAppend(bs: seq<Banner>, b: Banner, step: int)
    requires StackedBy(bs, step)
    requires b.offset == Scaled(CountLive(bs), step)
    ensures StackedBy(bs + [b], step)
  {
    var r := bs + [b];
    forall i | 0 <= i < |r|
      ensures At(r, i).disposed || At(r, i).offset == Scaled(CountLive(r[..i]), step)
    {
      if i < |bs| {
        assert At(r, i) == At(bs, i) && r[..i] == bs[..i];
      } else {
        assert r[..i] == bs;
      }
    }
  }

  // ---------------------------------------------------------------------------
  // Removal of one banner

  /** The index of the first banner with identity `id`, or -1. */
  function IndexOfId(bs: seq<Banner>, id: nat): (k: int)
    ensures -1 <= k < |bs|
    ensures k == -1 <==> id !in Ids(bs)
    ensures 0 <= k ==> bs[k].id == id && forall j :: 0 <= j < k ==> bs[j].id != id
  {
    IndexOfIdFrom(bs, id, 0)
  }

  /** The scan behind `IndexOfId`, from position `i` on. */
  function IndexOfIdFrom(bs: seq<Banner>, id: nat, i: nat): (k: int)
    requires i <= |bs|
    ensures k == -1 || i <= k < |bs|
    ensures k == -1 <==> forall j :: i <= j < |bs| ==> bs[j].id != id
    ensures 0 <= k ==> bs[k].id == id && forall j :: i <= j < k ==> bs[j].id != id
    decreases |bs| - i
  {
    if i == |bs| then -1
    else if bs[i].id == id then i
    else IndexOfIdFrom(bs, id, i + 1)
  }

  lemma RemoveAt(bs: seq<Banner>, k: nat)
    requires k < |bs|
    ensures var r := bs[..k] + bs[k + 1..];
      |r| == |bs| - 1 && forall i :: 0 <= i < |r| ==> r[i] == (if i < k then bs[i] else bs[i + 1])
  {
  }

  /** `_activeBanners.Remove(bannerForm)`: the first banner with identity `id` is taken out. */
  function RemoveFirstId(bs: seq<Banner>, id: nat): (r: seq<Banner>)
    ensures id !in Ids(bs) ==> r == bs
    ensures id in Ids(bs) ==> |r| == |bs| - 1
    ensures forall b :: b in r ==> b in bs
    ensures DistinctIds(bs) ==> DistinctIds(r) && id !in Ids(r)
  {
    var k := IndexOfId(bs, id);
    if k < 0 then bs
    else
      var r := bs[..k] + bs[k + 1..];
      RemoveAt(bs, k);
      r
  }

  /**
   * Taking a banner out and restacking the rest keeps the list's invariants:
   * the others stay live, distinct and stacked, and the removed one is gone.
   */
  lemma RemoveAndReflow(bs: seq<Banner>, id: nat, n: nat)
    requires AllLive(bs) && DistinctIds(bs)
    requires forall i :: 0 <= i < |bs| ==> bs[i].id < n
    ensures var r := Reflow(RemoveFirstId(bs, id));
      AllLive(r) && DistinctIds(r) && Stacked(r) && |r| <= |bs| && id !in Ids(r) &&
      forall i :: 0 <= i < |r| ==> r[i].id < n
  {
    var removed := RemoveFirstId(bs, id);
    var r := Reflow(removed);
    ReflowStacked(removed);
    forall i | 0 <= i < |removed|
      ensures removed[i].id < n && !removed[i].disposed
    {
      assert removed[i] in bs;
    }
    forall i | 0 <= i < |r|
      ensures r[i].id == removed[i].id && !r[i].disposed
    {
      assert Ids(r)[i] == Ids(removed)[i];
    }
  }

  // ---------------------------------------------------------------------------
  // One poll

  /**
   * The dequeue part of `ProcessQueue`: take the head; while Do-Not-Disturb
   * is on, a request that is not important is dropped and the next one is
   * taken. The result is the request to show, if any, and the queue after.
   */
  function Poll(q: QueueState, dnd: bool): (r: (Option<Config>, QueueState))
    requires Inv(q)
    ensures Inv(r.1)
    ensures dnd && r.0.Some? ==> r.0.value.important
    ensures r.0.None? && !dnd ==> q.items == [] && r.1 == q
    decreases Pending(q)
  {
    var d := DequeueStep(q);
    if !d.ok then (None, q)
    else if dnd && !d.config.value.important then Poll(d.next, dnd)
    else (d.config, d.next)
  }

  /**
   * With Do-Not-Disturb on, a poll returns the first important request and
   * drops every request before it, leaving the queue as a dequeue of that
   * request leaves it (the summary is injected if it was the last entry); with
   * none, it empties the queue and shows nothing. Important requests are never
   * dropped and keep their order.
   */
  lemma {:induction false} PollUnderDnd(q: QueueState)
    requires Inv(q)
    ensures var k := FirstImportant(q.items);
      Poll(q, true) ==
        if k < 0 then (None, Empty) else (Some(q.items[k]), DequeueStep(q.(items := q.items[k..])).next)
    decreases Pending(q)
  {
    var items := q.items;
    if items == [] {
      assert q == Empty;
    } else if items[0].important {
      assert items[0..] == items;
    } else {
      var d := DequeueStep(q);
      PollUnderDnd(d.next);
      var k := FirstImportant(items);
      if k < 0 {
        DequeueKeepsNoImportant(q);
      } else {
        DequeueBeforeImportant(q);
        assert d.next.(items := d.next.items[k - 1..]) == q.(items := items[k..]);
      }
    }
  }

  /**
   * Without Do-Not-Disturb a poll is one `TryDequeue`: the head, if any.
   */
  lemma PollWithoutDnd(q: QueueState)
    requires Inv(q)
    ensures Poll(q, false).0 == (if q.items == [] then None else Some(q.items[0]))
    ensures Poll(q, false).1 == DequeueStep(q).next
  {
  }

  /**
   * Under Do-Not-Disturb, a queue holding no important request is emptied
   * without a banner, and the skipped-count summary is dropped with the rest.
   */
  lemma {:induction false} DndDrainsUnimportant(q: QueueState)
    requires Inv(q)
    requires forall i :: 0 <= i < |q.items| ==> !q.items[i].important
    ensures Poll(q, true) == (None, Empty)
    decreases Pending(q)
  {
    var d := DequeueStep(q);
    if d.ok {
      assert !SkippedSummary(q.skipped).important;
      DndDrainsUnimportant(d.next);
    }
  }

  /**
   * What one `ProcessQueue` call does to the banner list and the queue:
   * disposed banners are removed, and while fewer than `max` remain one poll
   * may add one banner, placed below the live ones. `id` and `height` are the
   * identity and height the new banner gets.
   */
  function PollStep(bs: seq<Banner>, q: QueueState, max: int, dnd: bool, id: nat, height: int): (r: (seq<Banner>, QueueState))
    requires Inv(q)
    ensures Inv(r.1)
    ensures |RemoveDisposed(bs)| >= max ==> r == (RemoveDisposed(bs), q)
    ensures r.0 == RemoveDisposed(bs) || (|r.0| == |RemoveDisposed(bs)| + 1 && r.0[..|r.0| - 1] == RemoveDisposed(bs))
    ensures |r.0| > |RemoveDisposed(bs)| ==>
              |RemoveDisposed(bs)| < max && r.0[|r.0| - 1].id == id && !r.0[|r.0| - 1].disposed &&
              (dnd ==> r.0[|r.0| - 1].config.important)
  {
    var live := RemoveDisposed(bs);
    if |live| >= max then (live, q)
    else
      var p := Poll(q, dnd);
      if p.0.None? then (live, p.1)
      else (live + [Banner(id, p.0.value, height, Scaled(|live|, StepOf(live, height)), false)], p.1)
  }

  /**
   * A poll in terms of one dequeue: nothing at the limit or on an empty
   * queue, a skipped request under Do-Not-Disturb polls again, and any
   * other request is shown.
   */
  lemma PollStepUnfold(bs: seq<Banner>, q: QueueState, max: int, dnd: bool, id: nat, height: int)
    requires Inv(q)
    ensures var live := RemoveDisposed(bs);
      var d := DequeueStep(q);
      PollStep(bs, q, max, dnd, id, height) ==
        if |live| >= max || !d.ok then (live, q)
        else if dnd && !d.config.value.important then PollStep(live, d.next, max, dnd, id, height)
        else (live + [Banner(id, d.config.value, height, Scaled(|live|, StepOf(live, height)), false)], d.next)
  {
    RemoveDisposedIdempotent(bs);
  }

  /** A banner placed one step below the last of a stacked list of live banners keeps it stacked. */
  lemma StackedPush(bs: seq<Banner>, b: Banner, height: int)
    requires AllLive(bs) && Stacked(bs)
    requires b.height == height && b.offset == Scaled(|bs|, StepOf(bs, height))
    ensures Stacked(bs + [b])
  {
    CountLiveOfAllLive(bs);
    if bs == [] {
      assert StackedBy([b], height + Spacing);
    } else {
      StackedAppend(bs, b, bs[0].height + Spacing);
    }
  }

  /** A poll never takes the number of banners above the limit, and keeps the stack gap-free. */
  lemma {:induction false} PollStepKeepsBound(bs: seq<Banner>, q: QueueState, max: int, dnd: bool, id: nat, height: int)
    requires Inv(q) && AllLive(bs) && Stacked(bs)
    requires bs == [] || |bs| <= max
    ensures PollStep(bs, q, max, dnd, id, height).0 == [] || |PollStep(bs, q, max, dnd, id, height).0| <= max
    ensures Stacked(PollStep(bs, q, max, dnd, id, height).0)
    ensures AllLive(PollStep(bs, q, max, dnd, id, height).0)
    ensures |bs| <= |PollStep(bs, q, max, dnd, id, height).0|
    ensures PollStep(bs, q, max, dnd, id, height).0[..|bs|] == bs
  {
    RemoveDisposedOfAllLive(bs);
    var r := PollStep(bs, q, max, dnd, id, height);
    var p := Poll(q, dnd);
    if |bs| < max && p.0.Some? {
      var b := Banner(id, p.0.value, height, Scaled(|bs|, StepOf(bs, height)), false);
      assert r.0 == bs + [b];
      StackedPush(bs, b, height);
      AppendLive(bs, b);
    } else {
      assert r.0 == bs;
    }
  }

  lemma AppendLive(bs: seq<Banner>, b: Banner)
    requires AllLive(bs) && !b.disposed
    ensures AllLive(bs + [b]) && (bs + [b])[..|bs|] == bs
  {
  }

  /**
   * A banner with a fresh identity appended to a list of live banners: only
   * it is placed, at one step for every banner before it.
   */
  lemma NewBannerPlacement(before: seq<Banner>, b: Banner, height: int)
    requires AllLive(before) && !b.disposed && b.height == height
    requires forall i :: 0 <= i < |before| ==> before[i].id < b.id
    ensures var bs := before + [b];
      CountLiveExcept(bs, b.id) == |before| &&
      bs[0].height + Spacing == StepOf(before, height) &&
      forall i :: 0 <= i < |before| ==> bs[i].id != b.id
  {
    var bs := before + [b];
    assert bs[..|bs| - 1] == before;
    assert b.id !in Ids(before);
    CountLiveExceptAbsent(before, b.id);
    CountLiveOfAllLive(before);
  }

  // ---------------------------------------------------------------------------
  // The scheduler object

  /**
   * The identities of the banners a disposal sweep reaches before the
   * `foreach` of `Dispose` throws: the handler of the first live banner takes
   * it out of the list under the enumeration, so only that one is disposed.
   */
  function DisposeSweepAsWritten(bs: seq<Banner>): (r: seq<nat>)
    ensures |r| <= 1
    ensures AllLive(bs) && bs != [] ==> r == [bs[0].id]
  {
    if bs == [] then []
    else if bs[0].disposed then DisposeSweepAsWritten(bs[1..])
    else [bs[0].id]
  }

  /** As written, a sweep over two or more live banners leaves all but one on screen. */
  lemma DisposeSweepMissesBanners(bs: seq<Banner>)
    requires AllLive(bs) && DistinctIds(bs) && |bs| >= 2
    ensures bs[1].id !in DisposeSweepAsWritten(bs)
    ensures |DisposeSweepAsWritten(bs)| < |Ids(RemoveDisposed(bs))|
  {
    CountLiveOfAllLive(bs);
    assert DisposeSweepAsWritten(bs) == [bs[0].id];
  }

  /**
   * Banner `bs[0]`'s Disposed handler leaves the others, restacked, at the
   * front of the list, whether it then exits or polls.
   */
  lemma HandlerRemovesFirst(bs: seq<Banner>) returns (rest: seq<Banner>)
    requires bs != [] && AllLive(bs) && DistinctIds(bs)
    ensures rest == Reflow(RemoveFirstId(bs, bs[0].id)) && rest == Reflow(bs[1..])
    ensures |rest| == |bs| - 1 && RemoveDisposed(rest) == rest && AllLive(rest) && Stacked(rest)
  {
    assert IndexOfId(bs, bs[0].id) == 0;
    assert RemoveFirstId(bs, bs[0].id) == bs[1..];
    rest := Reflow(bs[1..]);
    ReflowStacked(bs[1..]);
    assert AllLive(rest);
    RemoveDisposedOfAllLive(rest);
  }

  /**
   * The Disposed handler of banner `id` on the list `bs` and queue `q`: the
   * banner is taken out and the rest restacked; then the process exits or
   * the queue is polled.
   */
  function HandleDisposed(bs: seq<Banner>, q: QueueState, id: nat, exit: bool, max: int, dnd: bool, next: nat, height: int)
    : (seq<Banner>, QueueState)
    requires Inv(q)
  {
    var rest := Reflow(RemoveFirstId(bs, id));
    if exit then (rest, q) else PollStep(rest, q, max, dnd, next, height)
  }

  /**
   * The handler of the first banner of a valid list leaves the other banners,
   * restacked and in order, at the front of the list.
   */
  lemma HandlerKeepsOthers(bs: seq<Banner>, q: QueueState, exit: bool, max: int, dnd: bool, next: nat, height: int)
    requires Inv(q) && bs != [] && AllLive(bs) && DistinctIds(bs) && |bs| <= max
    ensures var r := HandleDisposed(bs, q, bs[0].id, exit, max, dnd, next, height).0;
      |bs| - 1 <= |r| && r[..|bs| - 1] == Reflow(bs[1..])
  {
    var rest := HandlerRemovesFirst(bs);
    if !exit {
      PollStepKeepsBound(rest, q, max, dnd, next, height);
    }
  }

  class NotificationManager {
    var active: seq<Banner>
    var nextId: nat
    var timerRunning: bool
    const maxOnScreen: int
    const queue: NotificationQueue

    predicate Valid()
      reads this`active, this`nextId, queue
    {
      queue.Valid() &&
      AllLive(active) && DistinctIds(active) &&
      (forall i :: 0 <= i < |active| ==> active[i].id < nextId) &&
      Stacked(active) &&
      (active == [] || |active| <= maxOnScreen)
    }

    /** The constructor polls once before starting the 100 ms timer. */
    constructor (q: NotificationQueue, config: Config, dnd: bool, height: int)
      requires q.Valid()
      modifies q
      ensures Valid() && queue == q && maxOnScreen == config.maxNotificationsOnScreen && timerRunning
      ensures (active, q.State()) == PollStep([], old(q.State()), maxOnScreen, dnd, 0, height)
    {
      queue := q;
      maxOnScreen := config.maxNotificationsOnScreen;
      active := [];
      nextId := 0;
      timerRunning := false;
      new;
      ProcessQueue(dnd, height);
      timerRunning := true;
    }

    /**
     * `ProcessQueue`, run by the constructor, every timer tick and every
     * Disposed handler: drop disposed banners, and while below the limit
     * dequeue one request, skip it under Do-Not-Disturb unless important
     * (polling again at once), and otherwise show it.
     */
    method ProcessQueue(dnd: bool, height: int)
      requires Valid()
      modifies this, queue
      ensures Valid() && timerRunning == old(timerRunning)
      ensures (active, queue.State()) == PollStep(old(active), old(queue.State()), maxOnScreen, dnd, old(nextId), height)
      ensures nextId >= old(nextId)
      decreases Pending(queue.State())
    {
      PollStepUnfold(active, queue.State(), maxOnScreen, dnd, nextId, height);
      RemoveDisposedOfAllLive(active);
      active := RemoveDisposed(active);
      if |active| < maxOnScreen {
        var ok, config := queue.TryDequeue();
        if ok && config.Some? {
          if dnd && !config.value.important {
            ProcessQueue(dnd, height);
            return;
          }
          ShowNotification(config.value, height);
        }
      }
    }

    /** `ShowNotification`: a new banner is added at the end of the list and positioned. */
    method ShowNotification(config: Config, height: int)
      requires Valid() && |active| < maxOnScreen
      modifies this
      ensures Valid() && timerRunning == old(timerRunning)
      ensures active == old(active) + [Banner(old(nextId), config, height, Scaled(|old(active)|, StepOf(old(active), height)), false)]
      ensures nextId == old(nextId) + 1
    {
      var b := Banner(nextId, config, height, 0, false);
      ghost var before := active;
      ghost var placed := b.(offset := Scaled(|before|, StepOf(before, height)));
      nextId := nextId + 1;
      active := active + [b];
      PositionNewBanner(b.id);
      NewBannerPlacement(before, b, height);
      assert active == before + [placed];
      StackedPush(before, placed, height);
    }

    /**
     * `PositionNewBanner`: the banner `id` is moved to one step for every
     * other live banner in the list; nothing else changes.
     */
    method PositionNewBanner(id: nat)
      modifies this`active
      ensures old(active) == [] ==> active == []
      ensures old(active) != [] ==>
                |active| == |old(active)| &&
                forall i :: 0 <= i < |active| ==>
                  active[i] == (if old(active)[i].id == id
                                then old(active)[i].(offset := Scaled(CountLiveExcept(old(active), id), old(active)[0].height + Spacing))
                                else old(active)[i])
    {
      if |active| == 0 {
        return;
      }
      var step := active[0].height + Spacing;
      var total := 0;
      var i := 0;
      while i < |active|
        invariant 0 <= i <= |active|
        invariant total == Scaled(CountLiveExcept(active[..i], id), step)
      {
        assert active[..i + 1][..i] == active[..i];
        if !active[i].disposed && active[i].id != id {
          total := total + step;
        }
        i := i + 1;
      }
      assert active[..i] == active;
      var bs := active;
      active := seq(|bs|, k requires 0 <= k < |bs| => if bs[k].id == id then bs[k].(offset := total) else bs[k]);
    }

    /**
     * `RepositionBanners`: walking the list, every live banner gets the
     * running offset and the offset grows by one step; afterwards the live
     * banners are stacked without gaps.
     */
    method RepositionBanners()
      modifies this`active
      ensures active == Reflow(old(active))
    {
      if |active| == 0 {
        return;
      }
      var banners := active;
      ghost var orig := banners;
      var step := banners[0].height + Spacing;
      ghost var target := ReflowWith(orig, step);
      ReflowWithAt(orig, step);
      var total := 0;
      var i := 0;
      while i < |banners|
        invariant 0 <= i <= |banners| == |orig|
        invariant forall k :: 0 <= k < i ==> banners[k] == target[k]
        invariant forall k :: i <= k < |banners| ==> banners[k] == orig[k]
        invariant total == Scaled(CountLive(orig[..i]), step)
      {
        CountLiveStep(orig, i);
        if !banners[i].disposed {
          banners := banners[i := banners[i].(offset := total)];
          total := total + step;
        }
        i := i + 1;
      }
      assert banners == target;
      active := banners;
    }

    /**
     * The Disposed handler that `ShowNotification` attaches to banner `id`
     * showing `config`: take the banner out of the list, restack the rest if
     * any remain, then either exit (the request asked for it) or poll again.
     */
    method OnBannerDisposed(id: nat, config: Config, dnd: bool, height: int) returns (exit: bool)
      requires Valid()
      modifies this, queue
      ensures Valid() && timerRunning == old(timerRunning)
      ensures exit == config.exit
      ensures (active, queue.State()) ==
                HandleDisposed(old(active), old(queue.State()), id, exit, maxOnScreen, dnd, old(nextId), height)
    {
      RemoveBanner(id);
      exit := config.exit;
      if !exit {
        ProcessQueue(dnd, height);
      }
    }

    /** The locked part of the handler: take banner `id` out and restack the rest if any remain. */
    method RemoveBanner(id: nat)
      requires Valid()
      modifies this`active
      ensures Valid()
      ensures active == Reflow(RemoveFirstId(old(active), id))
    {
      ghost var target := Reflow(RemoveFirstId(active, id));
      RemoveAndReflow(active, id, nextId);
      assert target == [] || |target| <= maxOnScreen;
      active := RemoveFirstId(active, id);
      if |active| > 0 {
        RepositionBanners();
      }
      assert active == target;
    }

    /**
     * `Dispose` as the source intends it: the timer stops, every live banner
     * is disposed (their identities are returned in list order) and the list
     * is cleared. The Disposed handlers are taken as not re-entering the
     * scheduler here.
     */
    method Dispose() returns (closed: seq<nat>)
      requires Valid()
      modifies this
      ensures Valid() && !timerRunning && active == []
      ensures closed == Ids(RemoveDisposed(old(active)))
    {
      timerRunning := false;
      closed := [];
      var i := 0;
      while i < |active|
        invariant 0 <= i <= |active|
        invariant closed == Ids(RemoveDisposed(active[..i]))
      {
        assert active[..i + 1][..i] == active[..i];
        if !active[i].disposed {
          closed := closed + [active[i].id];
        }
        i := i + 1;
      }
      assert active[..i] == active;
      active := [];
    }

    /**
     * `Dispose` as written: disposing the first live banner runs its Disposed
     * handler, which removes it from the list the `foreach` is walking (and
     * polls again), so the next step of the enumeration throws and the other
     * banners are neither disposed nor cleared.
     */
    method DisposeAsWritten(dnd: bool, height: int) returns (threw: bool, exit: bool)
      requires Valid()
      modifies this, queue
      ensures Valid() && !timerRunning
      ensures threw <==> old(active) != []
      ensures !threw ==> active == [] && !exit
      ensures threw ==> exit == old(active)[0].config.exit
      ensures threw ==> |old(active)| - 1 <= |active| && active[..|old(active)| - 1] == Reflow(old(active)[1..])
      ensures DisposeSweepAsWritten(old(active)) == if threw then [old(active)[0].id] else []
    {
      timerRunning := false;
      if active == [] {
        threw, exit := false, false;
        return;
      }
      var first := active[0];
      assert DisposeSweepAsWritten(active) == [first.id];
      ghost var rest := HandlerRemovesFirst(active);
      HandlerKeepsOthers(active, queue.State(), first.config.exit, maxOnScreen, dnd, nextId, height);
      exit := OnBannerDisposed(first.id, first.config, dnd, height);
      threw := true;
    }
  }
}
