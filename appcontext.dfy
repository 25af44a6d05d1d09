/**
 * The single-banner scheduler (`MyApplicationContext`): a 100 ms timer polls
 * the queue; a poll first disposes the banner on screen, then dequeues and
 * shows the next request, skipping unimportant requests while Do-Not-Disturb
 * is on. Disposing a banner fires its `Disposed` handler at once, and that
 * handler clears the banner reference, ends the process if the most recently
 * dequeued request asked for it, and otherwise polls again.
 *
 * The pure functions `Poll`, `Closed` and `Dequeue` are the specification;
 * the class `ApplicationContext` updates its fields in place and is proved
 * against them. Banners are identified by the order in which they are
 * created; the model keeps the banners still on screen (`live`) and every
 * request shown so far (`shown`). The Do-Not-Disturb query is a parameter
 * that stays fixed during one poll.
 */
module AppContext {
  import opened Strings
  import opened Configuration
  import opened Queue
  import opened WebService
  import Manager

  /** A banner on screen: the identity of its form and the request it shows. */
  datatype Shown = Shown(id: nat, config: Config)

  /**
   * The scheduler's state: the queue, the banner the context refers to
   * (`_bannerForm`), the most recently dequeued request (`_currentConfig`),
   * the banners on screen, every request shown so far, the next form
   * identity and whether the process has exited.
   */
  datatype App = App(
    queue: QueueState,
    form: Option<nat>,
    current: Option<Config>,
    live: seq<Shown>,
    shown: seq<Config>,
    nextId: nat,
    exited: bool)

  /** The banners on screen once the one with identity `id` is disposed. */
  function Without(live: seq<Shown>, id: nat): (r: seq<Shown>)
    ensures forall s :: s in r ==> s in live && s.id != id
    ensures forall s :: s in live && s.id != id ==> s in r
  {
    if live == [] then []
    else if live[0].id == id then Without(live[1..], id)
    else [live[0]] + Without(live[1..], id)
  }

  predicate AllImportant(cs: seq<Config>)
  {
    forall k :: 0 <= k < |cs| ==> cs[k].important
  }

  /**
   * What the scheduler may do between two states: it only appends to the
   * record of shown requests (and, under Do-Not-Disturb, only important
   * ones), hands out fresh form identities, never adds to the queue, and
   * only puts new banners on screen.
   */
  predicate Grows(a: App, r: App, dnd: bool)
  {
    |a.shown| <= |r.shown| && r.shown[..|a.shown|] == a.shown &&
    (dnd ==> AllImportant(r.shown[|a.shown|..])) &&
    a.nextId <= r.nextId &&
    Pending(r.queue) <= Pending(a.queue) &&
    (forall s :: s in r.live ==> s in a.live || a.nextId <= s.id)
  }

  lemma GrowsTrans(a: App, b: App, c: App, dnd: bool)
    requires Grows(a, b, dnd) && Grows(b, c, dnd)
    ensures Grows(a, c, dnd)
  {
    assert c.shown[..|a.shown|] == b.shown[..|a.shown|];
    if dnd {
      var tail := c.shown[|a.shown|..];
      forall k | 0 <= k < |tail|
        ensures tail[k].important
      {
        if |a.shown| + k < |b.shown| {
          assert tail[k] == b.shown[|a.shown|..][k];
        } else {
          assert tail[k] == c.shown[|b.shown|..][|a.shown| + k - |b.shown|];
        }
      }
    }
  }

  /** Moving the reference to a form is not a step of its own. */
  lemma GrowsForm(a: App, r: App, dnd: bool, form: Option<nat>)
    requires Grows(a, r, dnd)
    ensures Grows(a, r.(form := form), dnd)
  {
  }

  /**
   * The dequeue half of `ProcessQueue`, entered with no banner referred to:
   * dequeue; skip an unimportant request under Do-Not-Disturb and dequeue
   * again; show the first request not skipped, or nothing when the queue
   * runs dry.
   */
  function Dequeue(a: App, dnd: bool): (r: App)
    requires !a.exited && a.form.None?
    ensures !r.exited && Grows(a, r, dnd)
    ensures Inv(a.queue) ==> Inv(r.queue)
    ensures r.form.None? ==> r.live == a.live && r.shown == a.shown && r.queue.items == []
    ensures r.form.Some? ==>
              a.nextId <= r.form.value && r.nextId == r.form.value + 1 &&
              |r.shown| == |a.shown| + 1 && r.current == Some(r.shown[|a.shown|]) &&
              r.live == a.live + [Shown(r.form.value, r.shown[|a.shown|])]
    ensures !dnd && a.queue.items != [] ==> r.form.Some? && r.shown == a.shown + [a.queue.items[0]]
    ensures dnd && FirstImportant(a.queue.items) >= 0 ==>
              var k := FirstImportant(a.queue.items);
              r.form.Some? && r.shown == a.shown + [a.queue.items[k]]
    ensures !dnd && a.queue.items != [] ==> r.queue == DequeueStep(a.queue).next
    decreases Pending(a.queue)
  {
    var d := DequeueStep(a.queue);
    if !d.ok then a
    else
      var c := a.(queue := d.next, current := d.config);
      if dnd && !d.config.value.important then
        var r := Dequeue(c, dnd);
        GrowsTrans(a, c, r, dnd);
        DequeueBeforeImportant(a.queue);
        r
      else
        assert a.queue.items[0..] == a.queue.items;
        Show(c, d.config.value, dnd)
  }

  /**
   * `Dequeue` takes from the queue exactly what the manager's poll takes:
   * the queue left behind and the request shown are those of `Manager.Poll`,
   * whose value `Manager.PollUnderDnd` and `Manager.PollWithoutDnd` state.
   */
  lemma {:induction false} DequeueAgreesWithPoll(a: App, dnd: bool)
    requires !a.exited && a.form.None? && Inv(a.queue)
    ensures var p := Manager.Poll(a.queue, dnd);
      Dequeue(a, dnd).queue == p.1 &&
      Dequeue(a, dnd).shown == a.shown + (if p.0.Some? then [p.0.value] else [])
    decreases Pending(a.queue)
  {
    var d := DequeueStep(a.queue);
    if d.ok && dnd && !d.config.value.important {
      DequeueAgreesWithPoll(a.(queue := d.next, current := d.config), dnd);
    }
  }

  /** A new form showing `config`, under the next identity. */
  function Show(c: App, config: Config, dnd: bool): (r: App)
    requires dnd ==> config.important
    ensures r.form == Some(c.nextId) && r.nextId == c.nextId + 1
    ensures r.shown == c.shown + [config] && r.live == c.live + [Shown(c.nextId, config)]
    ensures r.queue == c.queue && r.current == c.current && r.exited == c.exited
    ensures Grows(c, r, dnd)
  {
    var r := c.(form := Some(c.nextId), live := c.live + [Shown(c.nextId, config)], shown := c.shown + [config], nextId := c.nextId + 1);
    assert r.shown[..|c.shown|] == c.shown;
    assert r.shown[|c.shown|..] == [config];
    r
  }

  /** `Dequeue` in terms of one dequeue: a skipped request dequeues again, any other is shown under a fresh id. */
  lemma DequeueUnfold(a: App, dnd: bool)
    requires !a.exited && a.form.None?
    ensures var d := DequeueStep(a.queue);
      var c := a.(queue := d.next, current := d.config);
      Dequeue(a, dnd) ==
        if !d.ok then a
        else if dnd && !d.config.value.important then Dequeue(c, dnd)
        else c.(form := Some(a.nextId), live := a.live + [Shown(a.nextId, d.config.value)],
                shown := a.shown + [d.config.value], nextId := a.nextId + 1)
  {
  }

  /**
   * `ProcessQueue` as written: a banner referred to is disposed first, and
   * its handler runs before the dequeue half; unless that handler ended the
   * process, the reference is then cleared, whatever the handler left in it.
   */
  function Poll(a: App, dnd: bool): (r: App)
    requires !a.exited && (a.form.Some? ==> a.form.value < a.nextId)
    ensures Grows(a, r, dnd)
    ensures Inv(a.queue) ==> Inv(r.queue)
    ensures r.form.Some? ==> r.form.value < r.nextId && !r.exited
    ensures a.form.Some? ==> forall s :: s in r.live ==> s.id != a.form.value
    decreases Pending(a.queue), if a.form.Some? then 2 else 0
  {
    match a.form
    case None => Dequeue(a, dnd)
    case Some(id) =>
      var b := Closed(a, id, dnd);
      if b.exited then b
      else
        var c := b.(form := None);
        var r := Dequeue(c, dnd);
        GrowsForm(a, b, dnd, None);
        GrowsTrans(a, c, r, dnd);
        r
  }

  /**
   * The `Disposed` handler after the banner `id` left the screen: clear the
   * reference, then exit if the most recently dequeued request says so, else
   * poll again.
   */
  function Closed(a: App, id: nat, dnd: bool): (r: App)
    requires !a.exited && id < a.nextId
    ensures Grows(a, r, dnd)
    ensures Inv(a.queue) ==> Inv(r.queue)
    ensures r.form.Some? ==> r.form.value < r.nextId && !r.exited
    ensures r.exited ==> r.form.None?
    ensures forall s :: s in r.live ==> s.id != id
    decreases Pending(a.queue), 1
  {
    var b := a.(live := Without(a.live, id), form := None);
    if b.current.Some? && b.current.value.exit then b.(exited := true)
    else
      var r := Poll(b, dnd);
      GrowsTrans(a, b, r, dnd);
      r
  }

  /**
   * The exit decision reads the most recently dequeued request, not the
   * request of the banner that closed: once an exit request has been
   * dequeued, closing any banner ends the process.
   */
  lemma ExitFollowsLatestRequest(a: App, id: nat, dnd: bool)
    requires !a.exited && id < a.nextId
    requires a.current.Some? && a.current.value.exit
    ensures Closed(a, id, dnd).exited
    ensures Closed(a, id, dnd).queue == a.queue
  {
  }

  /**
   * A banner does not outlive the next tick: with nothing queued, a poll
   * still disposes the banner on screen and shows nothing in its place.
   */
  lemma IdleTickClosesBanner(a: App, dnd: bool)
    requires !a.exited && a.form.Some? && a.form.value < a.nextId
    requires a.queue == Empty && !(a.current.Some? && a.current.value.exit)
    ensures Poll(a, dnd).live == Without(a.live, a.form.value)
    ensures Poll(a, dnd).form.None? && Poll(a, dnd).shown == a.shown
  {
    var b := a.(live := Without(a.live, a.form.value), form := None);
    assert Closed(a, a.form.value, dnd) == Dequeue(b, dnd) == b;
  }

  // ---------------------------------------------------------------------------
  // One banner at a time

  /** The intended shape: the banner referred to is the only one on screen. */
  predicate SingleBanner(a: App)
  {
    (a.form.None? ==> a.live == []) &&
    (a.form.Some? ==> |a.live| == 1 && a.live[0].id == a.form.value)
  }

  /**
   * As written, replacing a banner shows two: disposing banner 0 runs its
   * handler, which polls and shows B as banner 1; the outer poll then
   * forgets banner 1 and shows C as banner 2, so B stays on screen with
   * nothing referring to it.
   */
  lemma ReplacingOrphansBanner(cA: Config, cB: Config, cC: Config)
    requires !cA.exit && !cB.exit
    ensures var a := App(QueueState([cB, cC], 0), Some(0), Some(cA), [Shown(0, cA)], [cA], 1, false);
      SingleBanner(a) &&
      Poll(a, false).live == [Shown(1, cB), Shown(2, cC)] &&
      Poll(a, false).form == Some(2) &&
      !SingleBanner(Poll(a, false))
  {
    var a := App(QueueState([cB, cC], 0), Some(0), Some(cA), [Shown(0, cA)], [cA], 1, false);
    var b0 := a.(live := [], form := None);
    assert Without([Shown(0, cA)], 0) == [];
    assert DequeueStep(b0.queue) == Dequeued(true, Some(cB), QueueState([cC], 0)) by {
      assert [cB, cC][1..] == [cC];
    }
    var b1 := App(QueueState([cC], 0), Some(1), Some(cB), [Shown(1, cB)], [cA, cB], 2, false);
    assert Dequeue(b0, false) == b1;
    assert Closed(a, 0, false) == b1;
    var c := b1.(form := None);
    assert DequeueStep(c.queue) == Dequeued(true, Some(cC), QueueState([], 0));
    var r := App(QueueState([], 0), Some(2), Some(cC), [Shown(1, cB), Shown(2, cC)], [cA, cB, cC], 3, false);
    assert Dequeue(c, false) == r;
    assert Poll(a, false) == r;
  }

  /**
   * `ProcessQueue` with the replacement kept out of the handler: the banner
   * on screen is disposed without polling again from its handler, so only
   * this poll shows the next request.
   */
  function PollCorrected(a: App, dnd: bool): (r: App)
    requires !a.exited && SingleBanner(a) && (a.form.Some? ==> a.form.value < a.nextId)
    ensures SingleBanner(r) && Grows(a, r, dnd)
    ensures Inv(a.queue) ==> Inv(r.queue)
    ensures a.form.Some? && !r.exited ==> r.form.None? || r.form.value != a.form.value
  {
    match a.form
    case None => Dequeue(a, dnd)
    case Some(id) =>
      var b := a.(live := [], form := None);
      if b.current.Some? && b.current.value.exit then b.(exited := true)
      else
        var r := Dequeue(b, dnd);
        GrowsTrans(a, b, r, dnd);
        r
  }

  /** The handler of a banner that closed by itself, in the corrected scheduler. */
  function ClosedCorrected(a: App, dnd: bool): (r: App)
    requires !a.exited && SingleBanner(a) && a.form.Some?
    ensures SingleBanner(r) && Grows(a, r, dnd)
    ensures Inv(a.queue) ==> Inv(r.queue)
  {
    var b := a.(live := [], form := None);
    if b.current.Some? && b.current.value.exit then b.(exited := true)
    else
      var r := PollCorrected(b, dnd);
      GrowsTrans(a, b, r, dnd);
      r
  }

  /** On the input that orphans a banner as written, the corrected poll shows just B. */
  lemma ReplacingKeepsOneBanner(cA: Config, cB: Config, cC: Config)
    requires !cA.exit
    ensures var a := App(QueueState([cB, cC], 0), Some(0), Some(cA), [Shown(0, cA)], [cA], 1, false);
      PollCorrected(a, false).live == [Shown(1, cB)] && PollCorrected(a, false).form == Some(1)
  {
    var a := App(QueueState([cB, cC], 0), Some(0), Some(cA), [Shown(0, cA)], [cA], 1, false);
    var b := a.(live := [], form := None);
    assert DequeueStep(b.queue) == Dequeued(true, Some(cB), QueueState([cC], 0)) by {
      assert [cB, cC][1..] == [cC];
    }
  }

  // ---------------------------------------------------------------------------
  // The application context

  const QueueTimerInterval: nat := 100

  class ApplicationContext {
    const queue: NotificationQueue
    var form: Option<nat>
    var current: Option<Config>
    var live: seq<Shown>
    var shown: seq<Config>
    var nextId: nat
    var exited: bool
    var timerInterval: nat
    var timerRunning: bool
    var webServer: WebServer?

    function State(): App
      reads this, queue
    {
      App(queue.State(), form, current, live, shown, nextId, exited)
    }

    predicate Valid()
      reads this, queue
    {
      queue.Valid() && (form.Some? ==> form.value < nextId)
    }

    /**
     * The constructor: start queue processing (a 100 ms timer, with one poll
     * before it starts), then start the web server only for a positive
     * listen port.
     */
    constructor (notificationQueue: NotificationQueue, config: Config, dnd: bool,
                 ifaces: Option<seq<Interface>>, binds: string -> bool)
      requires notificationQueue.Valid()
      modifies notificationQueue
      ensures Valid() && queue == notificationQueue
      ensures !exited ==> timerRunning && timerInterval == QueueTimerInterval
      ensures State() == Poll(App(old(notificationQueue.State()), None, None, [], [], 0, false), dnd)
      ensures (webServer != null) == (!exited && config.apiListenPort > 0)
      ensures webServer != null ==> fresh(webServer) && webServer.queue == queue &&
                                    (webServer.isRunning <==> config.apiListenPort <= MaxPort)
    {
      queue := notificationQueue;
      form := None;
      current := None;
      live := [];
      shown := [];
      nextId := 0;
      exited := false;
      timerInterval := 0;
      timerRunning := false;
      webServer := null;
      new;
      timerInterval := QueueTimerInterval;
      ProcessQueue(dnd);
      if exited {
        return;
      }
      timerRunning := true;
      if config.apiListenPort > 0 {
        var server := new WebServer(queue, config);
        server.Start(config.apiListenPort, ifaces, binds);
        webServer := server;
      }
    }

    /** `ProcessQueue` as written, proved against `Poll`. */
    method ProcessQueue(dnd: bool)
      requires Valid() && !exited
      modifies this, queue
      ensures Valid()
      ensures State() == Poll(old(State()), dnd)
      ensures webServer == old(webServer) && timerRunning == old(timerRunning) && timerInterval == old(timerInterval)
      decreases Pending(queue.State()), if form.Some? then 2 else 0
    {
      if form.Some? {
        var id := form.value;
        CloseBanner(id, dnd);
        if exited {
          return;
        }
        form := None;
      }
      ShowNext(dnd);
    }

    /**
     * The dequeue half of `ProcessQueue`, proved against `Dequeue`. The
     * source re-enters `ProcessQueue` to skip a request; with no banner
     * referred to, that call is this one.
     */
    method ShowNext(dnd: bool)
      requires Valid() && !exited && form.None?
      modifies this, queue
      ensures Valid()
      ensures State() == Dequeue(old(State()), dnd)
      ensures webServer == old(webServer) && timerRunning == old(timerRunning) && timerInterval == old(timerInterval)
      decreases Pending(queue.State())
    {
      DequeueUnfold(State(), dnd);
      var ok, config := queue.TryDequeue();
      if ok && config.Some? {
        current := config;
        if dnd && !config.value.important {
          ShowNext(dnd);
          return;
        }
        var id := nextId;
        nextId := nextId + 1;
        form := Some(id);
        live := live + [Shown(id, config.value)];
        shown := shown + [config.value];
      }
    }

    /**
     * A banner's `Dispose`: it leaves the screen and its `Disposed` handler
     * runs. The poll calls this for the banner it replaces; the banner's own
     * hide timer calls it when its time is up.
     */
    method CloseBanner(id: nat, dnd: bool)
      requires Valid() && !exited && id < nextId
      modifies this, queue
      ensures Valid()
      ensures State() == Closed(old(State()), id, dnd)
      ensures webServer == old(webServer) && timerRunning == old(timerRunning) && timerInterval == old(timerInterval)
      decreases Pending(queue.State()), 1
    {
      live := Without(live, id);
      form := None;
      if current.Some? && current.value.exit {
        exited := true;
        return;
      }
      ProcessQueue(dnd);
    }

    /** `Dispose(true)`: stop the web server, if any, and drop it. */
    method Dispose()
      modifies this, webServer
      ensures webServer == null
      ensures old(webServer) != null ==> !old(webServer).isRunning
      ensures State() == old(State())
    {
      if webServer != null {
        webServer.Stop();
      }
      webServer := null;
    }
  }
}
