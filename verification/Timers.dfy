/** src/timer.cpp: the list of timers, from creation to deletion. */
module Timers {
  import opened Common
  import opened IntrusiveQueues

  /** What a Timer object holds; `id` tells the timers of a run apart. */
  datatype T = T(id: nat, refcnt: int, expires: int, cancelled: bool)

  /** What happens to timers, in order: handlers started, cancellations, deletions. */
  datatype Note =
    | Started(id: nat, expires: int, tick: int)
    | Cancelled(id: nat)
    | Freed(id: nat, refcnt: int, cancelled: bool)

  datatype TimerState = TimerState(tick: int, queue: seq<T>, nextId: nat, log: seq<Note>)

  function Drop(refcnt: int): int {
    if refcnt > 0 then refcnt - 1 else refcnt
  }

  /** Whether a tick starts the handler. Written: if the timer is cancelled
      (src/timer.cpp:88). Intended: if it is not. */
  predicate Starts(form: Form, t: T, tick: int) {
    (if form.Written? then t.cancelled else !t.cancelled) && t.expires < tick
  }

  function AfterStart(form: Form, t: T, tick: int): T {
    if Starts(form, t, tick) then t.(cancelled := true) else t
  }

  predicate Deleted(t: T) {
    t.cancelled && t.refcnt == 0
  }

  function StartNotes(form: Form, t: T, tick: int): seq<Note> {
    if Starts(form, t, tick) then [Started(t.id, t.expires, tick)] else []
  }

  function FreeNotes(t: T): seq<Note> {
    if Deleted(t) then [Freed(t.id, t.refcnt, t.cancelled)] else []
  }

  function Notes(form: Form, t: T, tick: int): seq<Note> {
    StartNotes(form, t, tick) + FreeNotes(AfterStart(form, t, tick))
  }

  /** The walk of timers_tick: the timers it leaves. */
  function TickQueue(form: Form, q: seq<T>, tick: int): seq<T> {
    if q == [] then []
    else
      var t' := AfterStart(form, q[0], tick);
      (if Deleted(t') then [] else [t']) + TickQueue(form, q[1..], tick)
  }

  /** The walk of timers_tick: what it does. */
  function TickNotes(form: Form, q: seq<T>, tick: int): seq<Note> {
    if q == [] then [] else Notes(form, q[0], tick) + TickNotes(form, q[1..], tick)
  }

  datatype TimerEvent = Create(delay: nat, oneshot: bool) | Cancel(i: nat) | Release(i: nat) | Tick

  /** Cancel and Release name a timer by its place in the queue. */
  function Step(form: Form, st: TimerState, e: TimerEvent): TimerState {
    match e
    case Create(delay, oneshot) =>
      st.(queue := st.queue + [T(st.nextId, if oneshot then 0 else 1, st.tick + delay, false)], nextId := st.nextId + 1)
    case Cancel(i) =>
      if i >= |st.queue| then st
      else
        var t := st.queue[i];
        st.(queue := st.queue[i := t.(refcnt := Drop(t.refcnt), cancelled := true)], log := st.log + [Cancelled(t.id)])
    case Release(i) =>
      if i >= |st.queue| then st
      else st.(queue := st.queue[i := st.queue[i].(refcnt := Drop(st.queue[i].refcnt))])
    case Tick =>
      st.(tick := st.tick + 10,
          queue := TickQueue(form, st.queue, st.tick + 10),
          log := st.log + TickNotes(form, st.queue, st.tick + 10))
  }

  function Run(form: Form, es: seq<TimerEvent>): TimerState {
    if es == [] then TimerState(0, [], 0, [])
    else Step(form, Run(form, es[..|es| - 1]), es[|es| - 1])
  }

  lemma StepCreate(form: Form, st: TimerState, delay: nat, oneshot: bool)
    ensures Step(form, st, Create(delay, oneshot)) ==
            TimerState(st.tick, st.queue + [T(st.nextId, if oneshot then 0 else 1, st.tick + delay, false)],
                       st.nextId + 1, st.log)
  {}

  lemma StepTick(form: Form, st: TimerState)
    ensures Step(form, st, Tick) == TimerState(st.tick + 10, TickQueue(form, st.queue, st.tick + 10), st.nextId,
                                               st.log + TickNotes(form, st.queue, st.tick + 10))
  {}

  // ------------------------------------------------------------- one timer's life

  /** The only timer of a run; a trackable one may be let go of at once. */
  function Alone(delay: nat, oneshot: bool, released: bool, n: nat): seq<TimerEvent> {
    [Create(delay, oneshot)] + (if released then [TimerEvent.Release(0)] else []) + Repeat(Tick, n)
  }

  /** Its handler starts at the first tick past its delay, ten milliseconds a tick, and not
      again. By then one that nobody holds is deleted; one that is held stays. */
  lemma {:induction false} LifeOfOne(delay: nat, oneshot: bool, released: bool, n: nat)
    ensures Lived(delay, oneshot || released, n, Run(Intended, Alone(delay, oneshot, released, n)))
  {
    var es := Alone(delay, oneshot, released, n);
    if n == 0 {
      BeginningOfOne(delay, oneshot, released);
    } else {
      LifeOfOne(delay, oneshot, released, n - 1);
      assert es[..|es| - 1] == Alone(delay, oneshot, released, n - 1) && es[|es| - 1] == Tick;
      LivesOn(delay, oneshot || released, n - 1, Run(Intended, es[..|es| - 1]));
    }
  }

  predicate Lived(delay: nat, free: bool, n: nat, st: TimerState) {
    var started := Started(0, delay, 10 * (delay / 10 + 1));
    && st.tick == 10 * n
    && if 10 * n <= delay then st.queue == [T(0, if free then 0 else 1, delay, false)] && st.log == []
       else if free then st.queue == [] && st.log == [started, Freed(0, 0, true)]
       else st.queue == [T(0, 1, delay, true)] && st.log == [started]
  }

  lemma LivesOn(delay: nat, free: bool, n: nat, st: TimerState)
    requires Lived(delay, free, n, st)
    ensures Lived(delay, free, n + 1, Step(Intended, st, Tick))
  {
    OneTick(st);
    if 10 * n <= delay < 10 * (n + 1) {
      assert delay / 10 == n;
      var t := T(0, if free then 0 else 1, delay, false);
      assert Notes(Intended, t, 10 * n + 10)
          == [Started(0, delay, 10 * n + 10)] + if free then [Freed(0, 0, true)] else [];
    }
  }

  lemma BeginningOfOne(delay: nat, oneshot: bool, released: bool)
    ensures Run(Intended, Alone(delay, oneshot, released, 0))
         == TimerState(0, [T(0, if oneshot || released then 0 else 1, delay, false)], 1, [])
  {
    var create: seq<TimerEvent> := [Create(delay, oneshot)];
    assert create[..0] == [];
    assert Run(Intended, create) == TimerState(0, [T(0, if oneshot then 0 else 1, delay, false)], 1, []);
    if released {
      var es := create + [TimerEvent.Release(0)];
      assert es[..1] == create && Alone(delay, oneshot, released, 0) == es;
    } else {
      assert Alone(delay, oneshot, released, 0) == create;
    }
  }

  /** A tick on at most one timer. */
  lemma OneTick(st: TimerState)
    requires |st.queue| <= 1
    ensures var st', tick := Step(Intended, st, Tick), st.tick + 10;
            && (st.queue == [] ==> st'.queue == [] && st'.log == st.log)
            && (st.queue != [] ==>
                  var t := AfterStart(Intended, st.queue[0], tick);
                  st'.queue == (if Deleted(t) then [] else [t])
                  && st'.log == st.log + Notes(Intended, st.queue[0], tick))
  {
    var tick := st.tick + 10;
    assert st.log + [] == st.log;
    if st.queue != [] {
      assert st.queue[1..] == [] && TickQueue(Intended, [], tick) == [] && TickNotes(Intended, [], tick) == [];
      assert Notes(Intended, st.queue[0], tick) + [] == Notes(Intended, st.queue[0], tick);
    }
  }

  /** One that is cancelled never starts, and the next tick deletes it. */
  lemma LifeOfCancelled(delay: nat, oneshot: bool)
    ensures var st := Run(Intended, [Create(delay, oneshot), TimerEvent.Cancel(0), Tick]);
            st.queue == [] && st.log == [Cancelled(0), Freed(0, 0, true)]
  {
    var es: seq<TimerEvent> := [Create(delay, oneshot), TimerEvent.Cancel(0), Tick];
    assert es[..2][..1] == Alone(delay, oneshot, false, 0);
    BeginningOfOne(delay, oneshot, false);
    assert Run(Intended, es[..2]) == TimerState(0, [T(0, 0, delay, true)], 1, [Cancelled(0)]);
    OneTick(Run(Intended, es[..2]));
  }

  // ------------------------------------------------------------ what a log says

  /** The timers that have been started or cancelled. */
  function Stopped(log: seq<Note>): set<nat> {
    if log == [] then {}
    else Stopped(log[..|log| - 1]) + if log[|log| - 1].Freed? then {} else {log[|log| - 1].id}
  }

  function FreedIds(log: seq<Note>): set<nat> {
    if log == [] then {}
    else FreedIds(log[..|log| - 1]) + if log[|log| - 1].Freed? then {log[|log| - 1].id} else {}
  }

  /** No handler starts twice, after a cancellation, or before its time is past; no
      timer is deleted twice, or before it is cancelled and let go of. */
  predicate GoodLog(log: seq<Note>) {
    log == [] ||
    var init, last := log[..|log| - 1], log[|log| - 1];
    && GoodLog(init)
    && (last.Started? ==> last.expires < last.tick && last.id !in Stopped(init))
    && (last.Freed? ==> last.refcnt == 0 && last.cancelled && last.id !in FreedIds(init))
  }

  function Ids(q: seq<T>): set<nat> {
    if q == [] then {} else {q[0].id} + Ids(q[1..])
  }

  /** A timer of the queue against the log. */
  predicate Fits(t: T, log: seq<Note>, nextId: nat) {
    && t.id < nextId && t.refcnt >= 0
    && t.id !in FreedIds(log)
    && (!t.cancelled ==> t.id !in Stopped(log))
  }

  /** The timers are different and fit the log. */
  predicate AllFit(q: seq<T>, log: seq<Note>, nextId: nat) {
    q == [] || (Fits(q[0], log, nextId) && q[0].id !in Ids(q[1..]) && AllFit(q[1..], log, nextId))
  }

  ghost predicate Inv(st: TimerState) {
    && GoodLog(st.log) && AllFit(st.queue, st.log, st.nextId)
    && (forall id :: id in Stopped(st.log) ==> id < st.nextId)
    && (forall id :: id in FreedIds(st.log) ==> id < st.nextId)
  }

  lemma LogSnoc(log: seq<Note>, n: Note)
    ensures Stopped(log + [n]) == Stopped(log) + if n.Freed? then {} else {n.id}
    ensures FreedIds(log + [n]) == FreedIds(log) + if n.Freed? then {n.id} else {}
    ensures GoodLog(log + [n]) <==>
            GoodLog(log)
            && (n.Started? ==> n.expires < n.tick && n.id !in Stopped(log))
            && (n.Freed? ==> n.refcnt == 0 && n.cancelled && n.id !in FreedIds(log))
  {
    assert (log + [n])[..|log|] == log;
  }

  /** What a log gains by notes about one timer. */
  predicate Gains(log: seq<Note>, log': seq<Note>, ids: set<nat>) {
    && GoodLog(log')
    && Stopped(log') <= Stopped(log) + ids && FreedIds(log') <= FreedIds(log) + ids
  }

  lemma StartFits(t: T, tick: int, log: seq<Note>, nextId: nat)
    requires GoodLog(log) && Fits(t, log, nextId)
    ensures var log' := log + StartNotes(Intended, t, tick);
            Gains(log, log', {t.id}) && Fits(AfterStart(Intended, t, tick), log', nextId)
  {
    LogSnoc(log, Started(t.id, t.expires, tick));
    assert log + [] == log;
  }

  lemma {:induction false} FreeFits(t: T, log: seq<Note>, nextId: nat)
    requires GoodLog(log) && Fits(t, log, nextId)
    ensures var log' := log + FreeNotes(t);
            Gains(log, log', {t.id}) && (!Deleted(t) ==> Fits(t, log', nextId))
  {
    LogSnoc(log, Freed(t.id, t.refcnt, t.cancelled));
    assert log + [] == log;
  }

  lemma {:induction false} StillFit(q: seq<T>, log: seq<Note>, log': seq<Note>, ids: set<nat>, nextId: nat)
    requires AllFit(q, log, nextId) && Gains(log, log', ids) && ids !! Ids(q)
    ensures AllFit(q, log', nextId)
  {
    if q == [] {
    } else {
      StillFit(q[1..], log, log', ids, nextId);
    }
  }

  /** One turn of the walk. */
  lemma TurnFits(q: seq<T>, tick: int, log: seq<Note>, nextId: nat)
    requires GoodLog(log) && q != [] && AllFit(q, log, nextId)
    ensures var t' := AfterStart(Intended, q[0], tick); var log' := log + Notes(Intended, q[0], tick);
            && Gains(log, log', {q[0].id}) && AllFit(q[1..], log', nextId) && t'.id == q[0].id
            && (!Deleted(t') ==> Fits(t', log', nextId))
  {
    var t' := AfterStart(Intended, q[0], tick);
    var log1 := log + StartNotes(Intended, q[0], tick);
    StartFits(q[0], tick, log, nextId);
    FreeFits(t', log1, nextId);
    assert log1 + FreeNotes(t') == log + Notes(Intended, q[0], tick);
    StillFit(q[1..], log, log1 + FreeNotes(t'), {q[0].id}, nextId);
  }

  lemma {:induction false} TickGains(q: seq<T>, tick: int, log: seq<Note>, nextId: nat)
    requires GoodLog(log) && AllFit(q, log, nextId)
    ensures Gains(log, log + TickNotes(Intended, q, tick), Ids(q))
  {
    if q == [] {
      assert log + [] == log;
    } else {
      var log', rest := log + Notes(Intended, q[0], tick), TickNotes(Intended, q[1..], tick);
      TurnFits(q, tick, log, nextId);
      TickGains(q[1..], tick, log', nextId);
      GainsBoth(log, log', log' + rest, {q[0].id}, Ids(q[1..]));
      NotesOnTop(Intended, q, tick, log);
    }
  }

  lemma {:induction false} TickIds(q: seq<T>, tick: int)
    ensures Ids(TickQueue(Intended, q, tick)) <= Ids(q)
  {
    if q == [] {
    } else {
      TickIds(q[1..], tick);
      var t', rest := AfterStart(Intended, q[0], tick), TickQueue(Intended, q[1..], tick);
      assert [] + rest == rest && ([t'] + rest)[1..] == rest;
    }
  }

  lemma NotesOnTop(form: Form, q: seq<T>, tick: int, log: seq<Note>)
    requires q != []
    ensures (log + Notes(form, q[0], tick)) + TickNotes(form, q[1..], tick) == log + TickNotes(form, q, tick)
  {}

  lemma {:induction false} TickKeeps(q: seq<T>, tick: int, log: seq<Note>, nextId: nat)
    requires GoodLog(log) && AllFit(q, log, nextId)
    ensures AllFit(TickQueue(Intended, q, tick), log + TickNotes(Intended, q, tick), nextId)
  {
    if q == [] {
    } else {
      TurnFits(q, tick, log, nextId);
      TickKeeps(q[1..], tick, log + Notes(Intended, q[0], tick), nextId);
      HeadKeeps(q, tick, log, log + Notes(Intended, q[0], tick), nextId);
      NotesOnTop(Intended, q, tick, log);
    }
  }

  lemma HeadKeeps(q: seq<T>, tick: int, log: seq<Note>, log': seq<Note>, nextId: nat)
    requires q != [] && GoodLog(log') && AllFit(q[1..], log', nextId) && q[0].id !in Ids(q[1..])
    requires var t' := AfterStart(Intended, q[0], tick); !Deleted(t') ==> Fits(t', log', nextId)
    requires AllFit(TickQueue(Intended, q[1..], tick), log' + TickNotes(Intended, q[1..], tick), nextId)
    ensures AllFit(TickQueue(Intended, q, tick), log' + TickNotes(Intended, q[1..], tick), nextId)
  {
    TickGains(q[1..], tick, log', nextId);
    TickIds(q[1..], tick);
    HeadFits(AfterStart(Intended, q[0], tick), TickQueue(Intended, q[1..], tick), log',
             log' + TickNotes(Intended, q[1..], tick), Ids(q[1..]), nextId);
  }

  lemma GainsBoth(log: seq<Note>, log': seq<Note>, log'': seq<Note>, a: set<nat>, b: set<nat>)
    requires Gains(log, log', a) && Gains(log', log'', b)
    ensures Gains(log, log'', a + b)
  {}

  lemma HeadFits(t: T, rest: seq<T>, log: seq<Note>, log': seq<Note>, ids: set<nat>, nextId: nat)
    requires AllFit(rest, log', nextId) && Ids(rest) <= ids && t.id !in ids && Gains(log, log', ids)
    requires !Deleted(t) ==> Fits(t, log, nextId)
    ensures var q := (if Deleted(t) then [] else [t]) + rest;
            AllFit(q, log', nextId)
  {
    if Deleted(t) {
      assert [] + rest == rest;
    } else {
      assert ([t] + rest)[1..] == rest;
    }
  }

  /** Changing one timer under its id to one that fits. */
  lemma {:induction false} UpdateFits(q: seq<T>, i: nat, t: T, log: seq<Note>, nextId: nat)
    requires AllFit(q, log, nextId) && i < |q| && t.id == q[i].id
    requires t.refcnt >= 0 && (q[i].cancelled ==> t.cancelled) && (!t.cancelled ==> !q[i].cancelled)
    ensures AllFit(q[i := t], log, nextId) && Ids(q[i := t]) == Ids(q) && Fits(t, log, nextId) && q[i].refcnt >= 0
  {
    if i == 0 {
      assert q[0 := t][1..] == q[1..];
    } else {
      UpdateFits(q[1..], i - 1, t, log, nextId);
      assert q[i := t][1..] == q[1..][i - 1 := t];
    }
  }

  lemma {:induction false} FitsAt(q: seq<T>, i: nat, log: seq<Note>, nextId: nat)
    requires AllFit(q, log, nextId) && i < |q|
    ensures Fits(q[i], log, nextId) && q[i].id in Ids(q)
  {
    if i == 0 {
    } else {
      FitsAt(q[1..], i - 1, log, nextId);
    }
  }

  /** A cancellation is noted; the timer, cancelled, still fits. */
  lemma {:induction false} CancelledStillFit(q: seq<T>, i: nat, log: seq<Note>, nextId: nat)
    requires AllFit(q, log, nextId) && i < |q| && q[i].cancelled
    ensures AllFit(q, log + [Cancelled(q[i].id)], nextId)
  {
    LogSnoc(log, Cancelled(q[i].id));
    if i == 0 {
      OthersFit(q[1..], q[0].id, log, nextId);
    } else {
      FitsAt(q[1..], i - 1, log, nextId);
      CancelledStillFit(q[1..], i - 1, log, nextId);
    }
  }

  lemma {:induction false} OthersFit(q: seq<T>, id: nat, log: seq<Note>, nextId: nat)
    requires AllFit(q, log, nextId) && id !in Ids(q)
    ensures AllFit(q, log + [Cancelled(id)], nextId)
  {
    LogSnoc(log, Cancelled(id));
    if q == [] {
    } else {
      OthersFit(q[1..], id, log, nextId);
    }
  }

  lemma {:induction false} AppendFits(q: seq<T>, t: T, log: seq<Note>, nextId: nat)
    requires AllFit(q, log, nextId) && Fits(t, log, nextId + 1) && t.id == nextId
    ensures AllFit(q + [t], log, nextId + 1) && Ids(q + [t]) == Ids(q) + {t.id} && nextId !in Ids(q)
  {
    if q == [] {
      assert [] + [t] == [t] && [t][1..] == [];
    } else {
      AppendFits(q[1..], t, log, nextId);
      assert (q + [t])[1..] == q[1..] + [t];
    }
  }

  lemma CancelKeeps(st: TimerState, i: nat)
    requires Inv(st) && i < |st.queue|
    ensures Inv(Step(Intended, st, Cancel(i)))
  {
    var t := st.queue[i];
    var t' := t.(refcnt := Drop(t.refcnt), cancelled := true);
    FitsAt(st.queue, i, st.log, st.nextId);
    UpdateFits(st.queue, i, t', st.log, st.nextId);
    CancelledStillFit(st.queue[i := t'], i, st.log, st.nextId);
    LogSnoc(st.log, Cancelled(t.id));
  }

  lemma ReleaseKeeps(st: TimerState, i: nat)
    requires Inv(st) && i < |st.queue|
    ensures Inv(Step(Intended, st, Release(i)))
  {
    FitsAt(st.queue, i, st.log, st.nextId);
    UpdateFits(st.queue, i, st.queue[i].(refcnt := Drop(st.queue[i].refcnt)), st.log, st.nextId);
  }

  lemma CreateKeeps(st: TimerState, delay: nat, oneshot: bool)
    requires Inv(st)
    ensures Inv(Step(Intended, st, Create(delay, oneshot)))
  {
    AppendFits(st.queue, T(st.nextId, if oneshot then 0 else 1, st.tick + delay, false), st.log, st.nextId);
  }

  lemma TickStepKeeps(st: TimerState)
    requires Inv(st)
    ensures Inv(Step(Intended, st, Tick))
  {
    TickKeeps(st.queue, st.tick + 10, st.log, st.nextId);
    TickGains(st.queue, st.tick + 10, st.log, st.nextId);
    IdsBelow(st.queue, st.log, st.nextId);
  }

  lemma StepKeeps(st: TimerState, e: TimerEvent)
    requires Inv(st)
    ensures Inv(Step(Intended, st, e))
  {
    match e
    case Create(delay, oneshot) => CreateKeeps(st, delay, oneshot);
    case Cancel(i) =>
      if i < |st.queue| {
        CancelKeeps(st, i);
      }
    case Release(i) =>
      if i < |st.queue| {
        ReleaseKeeps(st, i);
      }
    case Tick => TickStepKeeps(st);
  }

  lemma {:induction false} IdsBelow(q: seq<T>, log: seq<Note>, nextId: nat)
    requires AllFit(q, log, nextId)
    ensures forall id :: id in Ids(q) ==> id < nextId
  {
    if q == [] {
    } else {
      IdsBelow(q[1..], log, nextId);
    }
  }

  /** Over every sequence of creations, cancellations, releases and ticks: a handler
      starts at most once, after its time and never after a cancellation; a timer
      is deleted at most once, cancelled and let go of; reference counts are never
      negative; and no deleted timer is in the queue. */
  lemma {:induction false} RunIsGood(es: seq<TimerEvent>)
    ensures var st := Run(Intended, es);
            GoodLog(st.log) && forall i :: 0 <= i < |st.queue| ==>
              st.queue[i].refcnt >= 0 && st.queue[i].id !in FreedIds(st.log)
              && (!st.queue[i].cancelled ==> st.queue[i].id !in Stopped(st.log))
  {
    RunKeeps(es);
    var st := Run(Intended, es);
    forall i | 0 <= i < |st.queue|
      ensures Fits(st.queue[i], st.log, st.nextId)
    {
      FitsAt(st.queue, i, st.log, st.nextId);
    }
  }

  lemma {:induction false} RunKeeps(es: seq<TimerEvent>)
    ensures Inv(Run(Intended, es))
  {
    if es == [] {
    } else {
      RunKeeps(es[..|es| - 1]);
      StepKeeps(Run(Intended, es[..|es| - 1]), es[|es| - 1]);
    }
  }

  /** After a tick every timer whose time is past is cancelled, because it was
      started, now or before, or cancelled; and none that is left is to be deleted. */
  lemma {:induction false} TickStartsAll(q: seq<T>, tick: int, i: nat)
    requires i < |TickQueue(Intended, q, tick)|
    ensures var t := TickQueue(Intended, q, tick)[i]; (t.expires < tick ==> t.cancelled) && !Deleted(t)
  {
    var t' := AfterStart(Intended, q[0], tick);
    if Deleted(t') {
      assert TickQueue(Intended, q, tick) == TickQueue(Intended, q[1..], tick);
      TickStartsAll(q[1..], tick, i);
    } else if i > 0 {
      TickStartsAll(q[1..], tick, i - 1);
    }
  }

  /** As written, a tick treats a timer as intended exactly as long as its time is
      not past: from then on it starts what was cancelled and nothing else. */
  lemma WrittenTickMeetsIntent(t: T, tick: int)
    ensures Notes(Written, t, tick) == Notes(Intended, t, tick) &&
            AfterStart(Written, t, tick) == AfterStart(Intended, t, tick)
            <==> t.expires >= tick
  {
    assert t.expires >= tick ==> AfterStart(Written, t, tick) == t == AfterStart(Intended, t, tick);
    assert t.expires >= tick ==> StartNotes(Written, t, tick) == [] == StartNotes(Intended, t, tick);
    if t.expires < tick {
      if t.cancelled {
        assert |Notes(Written, t, tick)| == |Notes(Intended, t, tick)| + 1;
      } else {
        assert |Notes(Written, t, tick)| == 0 < |Notes(Intended, t, tick)|;
      }
    }
  }

  function CancelIds(log: seq<Note>): set<nat> {
    if log == [] then {}
    else CancelIds(log[..|log| - 1]) + if log[|log| - 1].Cancelled? then {log[|log| - 1].id} else {}
  }

  /** Every timer that starts was cancelled before. */
  predicate StartsCancelled(log: seq<Note>) {
    log == [] ||
    var init, last := log[..|log| - 1], log[|log| - 1];
    StartsCancelled(init) && (last.Started? ==> last.id in CancelIds(init))
  }

  /** The cancelled timers of the queue are noted. */
  ghost predicate Noted(q: seq<T>, log: seq<Note>) {
    forall i :: 0 <= i < |q| && q[i].cancelled ==> q[i].id in CancelIds(log)
  }

  lemma CancelSnoc(log: seq<Note>, n: Note)
    ensures CancelIds(log + [n]) == CancelIds(log) + if n.Cancelled? then {n.id} else {}
    ensures StartsCancelled(log + [n]) <==> StartsCancelled(log) && (n.Started? ==> n.id in CancelIds(log))
  {
    assert (log + [n])[..|log|] == log;
  }

  /** A turn as written starts what was cancelled and leaves every timer as it was. */
  lemma WrittenTurn(t: T, tick: int, log: seq<Note>)
    requires StartsCancelled(log) && (t.cancelled ==> t.id in CancelIds(log))
    ensures var log' := log + Notes(Written, t, tick); StartsCancelled(log') && CancelIds(log') == CancelIds(log)
    ensures AfterStart(Written, t, tick) == t
  {
    var started := Started(t.id, t.expires, tick);
    var log1 := log + StartNotes(Written, t, tick);
    CancelSnoc(log, started);
    assert log + [] == log;
    CancelSnoc(log1, Freed(t.id, t.refcnt, t.cancelled));
    assert log + Notes(Written, t, tick) == log1 + FreeNotes(t);
    assert log1 + [] == log1;
  }

  lemma {:induction false} WrittenTick(q: seq<T>, tick: int, log: seq<Note>)
    requires StartsCancelled(log) && Noted(q, log)
    ensures var log' := log + TickNotes(Written, q, tick);
            StartsCancelled(log') && CancelIds(log') == CancelIds(log) && Noted(TickQueue(Written, q, tick), log')
  {
    if q == [] {
      assert log + [] == log;
    } else {
      WrittenTurn(q[0], tick, log);
      WrittenTick(q[1..], tick, log + Notes(Written, q[0], tick));
      NotesOnTop(Written, q, tick, log);
    }
  }

  lemma WrittenStep(st: TimerState, e: TimerEvent)
    requires StartsCancelled(st.log) && Noted(st.queue, st.log)
    ensures var st' := Step(Written, st, e); StartsCancelled(st'.log) && Noted(st'.queue, st'.log)
  {
    match e
    case Tick => WrittenTick(st.queue, st.tick + 10, st.log);
    case Cancel(i) => WrittenCancel(st, i);
    case Release(i) => WrittenRelease(st, i);
    case Create(_, _) =>
  }

  lemma WrittenRelease(st: TimerState, i: nat)
    requires Noted(st.queue, st.log)
    ensures var st' := Step(Written, st, Release(i)); st'.log == st.log && Noted(st'.queue, st'.log)
  {}

  lemma WrittenCancel(st: TimerState, i: nat)
    requires StartsCancelled(st.log) && Noted(st.queue, st.log)
    ensures var st' := Step(Written, st, Cancel(i)); StartsCancelled(st'.log) && Noted(st'.queue, st'.log)
  {
    if i < |st.queue| {
      CancelSnoc(st.log, Cancelled(st.queue[i].id));
    }
  }

  lemma {:induction false} WrittenRun(es: seq<TimerEvent>)
    ensures var st := Run(Written, es); StartsCancelled(st.log) && Noted(st.queue, st.log)
  {
    if es == [] {
    } else {
      WrittenRun(es[..|es| - 1]);
      WrittenStep(Run(Written, es[..|es| - 1]), es[|es| - 1]);
    }
  }

  lemma {:induction false} CancelledAt(log: seq<Note>, id: nat) returns (i: nat)
    requires id in CancelIds(log)
    ensures i < |log| && log[i] == Cancelled(id)
  {
    var k := |log| - 1;
    if id in CancelIds(log[..k]) {
      i := CancelledAt(log[..k], id);
    } else {
      i := k;
    }
  }

  lemma {:induction false} StartedAfter(log: seq<Note>, j: nat)
    requires StartsCancelled(log) && j < |log| && log[j].Started?
    ensures exists i :: 0 <= i < j && log[i] == Cancelled(log[j].id)
  {
    var k := |log| - 1;
    if j == k {
      var i := CancelledAt(log[..k], log[k].id);
      assert log[i] == Cancelled(log[k].id);
    } else {
      StartedAfter(log[..k], j);
      var i :| 0 <= i < j && log[..k][i] == Cancelled(log[..k][j].id);
      assert log[i] == Cancelled(log[j].id);
    }
  }

  /** In every run of the code as written a timer starts only after it was cancelled, so
      one that nobody cancels never does. */
  lemma {:induction false} WrittenNeverStarts(es: seq<TimerEvent>, j: nat)
    requires j < |Run(Written, es).log| && Run(Written, es).log[j].Started?
    ensures var log := Run(Written, es).log; exists i :: 0 <= i < j && log[i] == Cancelled(log[j].id)
  {
    WrittenRun(es);
    StartedAfter(Run(Written, es).log, j);
  }

  // ------------------------------------------------------------------ the list

  class Timer {
    /** The links by which it is in the list. */
    const node: ListHead
    const id: nat
    const expires: int
    var refcnt: int
    var cancelled: bool

    function Value(): T
      reads this
    {
      T(id, refcnt, expires, cancelled)
    }

    constructor (id: nat, tick: int, delay: nat, oneshot: bool)
      ensures Value() == T(id, if oneshot then 0 else 1, tick + delay, false) && fresh(node)
    {
      node := new ListHead();
      this.id, expires := id, tick + delay;
      refcnt, cancelled := if oneshot then 0 else 1, false;
    }

    method Release()
      modifies this
      ensures Value() == old(Value()).(refcnt := Drop(old(refcnt)))
    {
      if refcnt > 0 {
        refcnt := refcnt - 1;
      }
    }

    method Cancel()
      modifies this
      ensures Value() == old(Value()).(refcnt := Drop(old(refcnt)), cancelled := true)
    {
      if refcnt > 0 {
        refcnt := refcnt - 1;
      }
      cancelled := true;
    }
  }

  ghost function Values(q: seq<Timer>): (r: seq<T>)
    reads q
    ensures |r| == |q|
  {
    if q == [] then [] else [q[0].Value()] + Values(q[1..])
  }

  lemma {:induction false} ValuesAppend(p: seq<Timer>, q: seq<Timer>)
    ensures Values(p + q) == Values(p) + Values(q)
  {
    if p == [] {
      assert p + q == q;
    } else {
      ValuesAppend(p[1..], q);
      assert (p + q)[1..] == p[1..] + q;
    }
  }

  lemma ValuesSnoc(p: seq<Timer>, t: Timer)
    ensures Values(p + [t]) == Values(p) + [t.Value()]
  {
    ValuesAppend(p, [t]);
    assert Values([t]) == [t.Value()];
  }

  /** A turn moves the first timer's part of the result from the rest to the front. */
  lemma TurnValues(form: Form, kept: seq<T>, q: seq<T>, tick: int)
    requires q != []
    ensures var t', rest := AfterStart(form, q[0], tick), TickQueue(form, q[1..], tick);
            (if Deleted(t') then kept else kept + [t']) + rest == kept + TickQueue(form, q, tick)
  {
    var t', rest := AfterStart(form, q[0], tick), TickQueue(form, q[1..], tick);
    if Deleted(t') {
      assert [] + rest == rest;
    } else {
      assert (kept + [t']) + rest == kept + ([t'] + rest);
    }
  }

  lemma RestWithout(kept: seq<Timer>, t: Timer, later: seq<Timer>)
    requires NoRepeat(kept + ([t] + later))
    ensures NoRepeat(kept + later) && NoRepeat((kept + [t]) + later) && t !in kept && t !in later
  {
    assert kept + ([t] + later) == kept + [t] + later;
    NoRepeatMiddle(kept, t, later);
  }

  /** No timer is listed twice. */
  predicate NoRepeat(q: seq<Timer>) {
    q == [] || (q[0] !in q[1..] && NoRepeat(q[1..]))
  }

  lemma {:induction false} NoRepeatMiddle(p: seq<Timer>, t: Timer, q: seq<Timer>)
    requires NoRepeat(p + [t] + q)
    ensures t !in p && t !in q && NoRepeat(p + q)
  {
    if p == [] {
      assert p + [t] + q == [t] + q && p + q == q;
    } else {
      assert (p + [t] + q)[1..] == p[1..] + [t] + q;
      NoRepeatMiddle(p[1..], t, q);
      assert (p + q)[1..] == p[1..] + q;
      assert t in p[1..] + [t] + q;
      assert forall x :: x in p[1..] + q ==> x in p[1..] + [t] + q;
    }
  }

  lemma {:induction false} NoRepeatSnoc(q: seq<Timer>, t: Timer)
    requires NoRepeat(q) && t !in q
    ensures NoRepeat(q + [t])
  {
    if q == [] {
    } else {
      NoRepeatSnoc(q[1..], t);
      assert (q + [t])[1..] == q[1..] + [t];
    }
  }

  /** The global list of timers and the tick. */
  class TimerList {
    const form: Form
    const list: IntrusiveQueue
    /** The timer around each node: list_entry. */
    var entry: map<ListHead, Timer>
    var tick: int
    var nextId: nat
    /** The timers of the list, in order. */
    ghost var queue: seq<Timer>
    ghost var log: seq<Note>

    ghost predicate Valid()
      reads this`queue, this`entry, list, list.Repr
    {
      list.Valid() && Listed() && NoRepeat(queue)
    }

    /** The ring links the nodes of these timers. */
    ghost predicate Listed()
      reads this`queue, this`entry, list
    {
      && |queue| == |list.nodes|
      && forall i :: 0 <= i < |queue| ==>
           queue[i].node == list.nodes[i] && list.nodes[i] in entry && entry[list.nodes[i]] == queue[i]
    }

    ghost function Model(): TimerState
      reads this, queue
    {
      TimerState(tick, Values(queue), nextId, log)
    }

    constructor (form: Form)
      ensures Valid() && this.form == form && Model() == Run(form, []) && fresh(list) && fresh(list.Repr)
    {
      this.form := form;
      list := new IntrusiveQueue();
      entry, queue, tick, nextId, log := map[], [], 0, 0, [];
    }

    method CreateTimer(delay: nat, oneshot: bool) returns (t: Timer)
      requires Valid()
      modifies this`nextId, this`queue, this`entry, list, list.Repr
      ensures Valid() && fresh(t) && queue == old(queue) + [t]
      ensures Model() == Step(form, old(Model()), Create(delay, oneshot))
    {
      ghost var st := Model();
      t := NewTimer(delay, oneshot);
      AddTimer(t);
      StepCreate(form, st, delay, oneshot);
    }

    method NewTimer(delay: nat, oneshot: bool) returns (t: Timer)
      requires Valid()
      ensures Valid() && fresh(t) && t !in queue && fresh(t.node) && t.node !in list.Repr
      ensures t.Value() == T(nextId, if oneshot then 0 else 1, tick + delay, false)
      ensures Values(queue) == old(Values(queue))
    {
      t := new Timer(nextId, tick, delay, oneshot);
    }

    method AddTimer(t: Timer)
      requires Valid() && t !in queue && t.node !in list.Repr
      modifies this`nextId, this`queue, this`entry, t.node, list, list.Repr
      ensures Valid() && queue == old(queue) + [t]
      ensures Model() == TimerState(tick, old(Values(queue)) + [old(t.Value())], old(nextId) + 1, log)
    {
      NoRepeatSnoc(queue, t);
      ghost var values := Values(queue);
      LinkLast(t);
      assert Values(old(queue)) == values;
      ValuesSnoc(old(queue), t);
    }

    method LinkLast(t: Timer)
      requires list.Valid() && Listed() && t.node !in list.Repr
      modifies this`nextId, this`queue, this`entry, t.node, list, list.Repr
      ensures list.Valid() && Listed() && queue == old(queue) + [t] && nextId == old(nextId) + 1
    {
      assert forall i :: 0 <= i < |queue| ==> list.nodes[i] in list.Repr;
      list.QueueAddTail(t.node);
      entry := entry[t.node := t];
      queue := queue + [t];
      nextId := nextId + 1;
    }

    /** The i-th timer stands between two parts of the list that do not hold it. */
    lemma Around(i: nat)
      requires NoRepeat(queue) && i < |queue|
      ensures queue[i] !in queue[..i] && queue[i] !in queue[i + 1..]
      ensures Values(queue) == Values(queue[..i]) + [queue[i].Value()] + Values(queue[i + 1..])
    {
      var p, t, q := queue[..i], queue[i], queue[i + 1..];
      assert queue == p + [t] + q;
      NoRepeatMiddle(p, t, q);
      ValuesAppend(p + [t], q);
      ValuesAppend(p, [t]);
      assert Values([t]) == [t.Value()];
    }

    method CancelTimer(t: Timer, ghost i: nat)
      requires Valid() && i < |queue| && queue[i] == t
      modifies this`log, t
      ensures Valid() && Model() == Step(form, old(Model()), TimerEvent.Cancel(i))
    {
      CancelOne(t, i);
      log := log + [Cancelled(t.id)];
    }

    method CancelOne(t: Timer, ghost i: nat)
      requires NoRepeat(queue) && i < |queue| && queue[i] == t
      modifies t
      ensures t.Value() == old(t.Value()).(refcnt := Drop(old(t.refcnt)), cancelled := true)
      ensures old(Values(queue))[i] == old(t.Value())
      ensures Values(queue) == old(Values(queue))[i := t.Value()]
    {
      Around(i);
      ghost var was := Values(queue);
      t.Cancel();
      Around(i);
      assert Values(queue) == was[i := t.Value()];
    }

    method ReleaseTimer(t: Timer, ghost i: nat)
      requires Valid() && i < |queue| && queue[i] == t
      modifies t
      ensures Valid() && Model() == Step(form, old(Model()), TimerEvent.Release(i))
    {
      Around(i);
      t.Release();
      Around(i);
    }

    /** What the callback does with one timer. */
    method TickOne(t: Timer) returns (gone: bool)
      modifies t, this`log
      ensures t.Value() == AfterStart(form, old(t.Value()), tick)
      ensures gone == Deleted(t.Value())
      ensures log == old(log) + Notes(form, old(t.Value()), tick)
    {
      if (if form.Written? then t.cancelled else !t.cancelled) && t.expires < tick {
        log := log + [Started(t.id, t.expires, tick)];
        t.cancelled := true;
      }
      gone := t.cancelled && t.refcnt == 0;
      if gone {
        log := log + [Freed(t.id, t.refcnt, t.cancelled)];
      }
    }

    /** `kept` is left of the timers that had their turn, `rest` is still to come. */
    ghost predicate Walking(was: seq<T>, before: seq<Note>, kept: seq<Timer>, rest: seq<Timer>)
      reads this`log, this`tick, kept, rest
    {
      && NoRepeat(kept + rest)
      && Values(kept) + TickQueue(form, Values(rest), tick) == TickQueue(form, was, tick)
      && log + TickNotes(form, Values(rest), tick) == before + TickNotes(form, was, tick)
    }

    method Turn(t: Timer, ghost was: seq<T>, ghost before: seq<Note>, ghost kept: seq<Timer>, ghost rest: seq<Timer>)
        returns (gone: bool)
      requires rest != [] && rest[0] == t && Walking(was, before, kept, rest)
      modifies t, this`log
      ensures Walking(was, before, if gone then kept else kept + [t], rest[1..])
    {
      TurnBefore(t, kept, rest);
      gone := TickOne(t);
      ValuesSnoc(kept, t);
    }

    /** What a turn will make of the rest of the walk. */
    lemma TurnBefore(t: Timer, kept: seq<Timer>, rest: seq<Timer>)
      requires rest != [] && rest[0] == t && NoRepeat(kept + rest)
      ensures var later, v, t' := rest[1..], t.Value(), AfterStart(form, t.Value(), tick);
              && NoRepeat(kept + later) && NoRepeat((kept + [t]) + later) && t !in kept && t !in later
              && (if Deleted(t') then Values(kept) else Values(kept) + [t']) + TickQueue(form, Values(later), tick)
                 == Values(kept) + TickQueue(form, Values(rest), tick)
              && (log + Notes(form, v, tick)) + TickNotes(form, Values(later), tick)
                 == log + TickNotes(form, Values(rest), tick)
    {
      var later, values := rest[1..], Values(rest);
      assert rest == [t] + later;
      RestWithout(kept, t, later);
      assert values[0] == t.Value() && values[1..] == Values(later);
      TurnValues(form, Values(kept), values, tick);
      NotesOnTop(form, values, tick, log);
    }

    /** The walk stands behind `kept` and has fetched the node behind the current one. */
    ghost predicate OnWalk(kept: seq<Timer>, rest: seq<Timer>, pos: ListHead, p: ListHead)
      reads this`queue, this`entry, list, list.Repr
    {
      && list.Valid() && Listed() && queue == kept + rest
      && pos == list.At(list.nodes, |kept| + 1)
      && (rest != [] ==> p == list.At(list.nodes, |kept| + 2))
    }

    /** The links of one turn: the current node is unlinked or left, and the walk goes on
        to the node fetched before. */
    method AdvanceLinks(pos: ListHead, p: ListHead, gone: bool, ghost kept: seq<Timer>, ghost rest: seq<Timer>)
        returns (p': ListHead)
      requires rest != [] && OnWalk(kept, rest, pos, p)
      modifies this`queue, list, list.Repr
      ensures OnWalk(if gone then kept else kept + [rest[0]], rest[1..], p, p')
      ensures list.Repr <= old(list.Repr)
    {
      ghost var k := |kept| + 1;
      if gone {
        list.QueueDel(pos, |kept|);
        queue := kept + rest[1..];
        k := |kept|;
      } else {
        assert kept + rest == (kept + [rest[0]]) + rest[1..];
      }
      p' := list.NextOf(p, k + 1);
    }

    method Advance(pos: ListHead, p: ListHead, gone: bool, ghost kept: seq<Timer>, ghost rest: seq<Timer>,
                   ghost kept': seq<Timer>, ghost was: seq<T>, ghost before: seq<Note>)
        returns (p': ListHead)
      requires rest != [] && OnWalk(kept, rest, pos, p) && kept' == if gone then kept else kept + [rest[0]]
      requires Walking(was, before, kept', rest[1..])
      modifies this`queue, list, list.Repr
      ensures OnWalk(kept', rest[1..], p, p') && Walking(was, before, kept', rest[1..])
      ensures list.Repr <= old(list.Repr)
    {
      p' := AdvanceLinks(pos, p, gone, kept, rest);
    }

    /** One turn of list_for_each_safe: the callback, which may delete the current timer,
        and on. */
    method Pass(pos: ListHead, p: ListHead, ghost was: seq<T>, ghost before: seq<Note>,
                ghost kept: seq<Timer>, ghost rest: seq<Timer>)
        returns (p': ListHead, ghost kept': seq<Timer>)
      requires rest != [] && OnWalk(kept, rest, pos, p) && Walking(was, before, kept, rest)
      modifies this`log, this`queue, rest[0], list, list.Repr
      ensures OnWalk(kept', rest[1..], p, p') && Walking(was, before, kept', rest[1..])
      ensures list.Repr <= old(list.Repr)
    {
      assert queue[|kept|] == rest[0];
      var t := entry[pos];
      var gone := Turn(t, was, before, kept, rest);
      kept' := if gone then kept else kept + [t];
      p' := Advance(pos, p, gone, kept, rest, kept', was, before);
    }

    /** The walk under way: `rest` is the end of `all` that is still to come. */
    ghost predicate Going(all: seq<Timer>, kept: seq<Timer>, rest: seq<Timer>, pos: ListHead, p: ListHead,
                          was: seq<T>, before: seq<Note>)
      reads this`queue, this`entry, this`log, this`tick, list, list.Repr, kept, rest
    {
      && OnWalk(kept, rest, pos, p) && Walking(was, before, kept, rest)
      && |rest| <= |all| && rest == all[|all| - |rest|..]
    }

    method GoOn(pos: ListHead, p: ListHead, ghost all: seq<Timer>, ghost was: seq<T>, ghost before: seq<Note>,
                ghost kept: seq<Timer>, ghost rest: seq<Timer>)
        returns (p': ListHead, ghost kept': seq<Timer>)
      requires pos != list.head && Going(all, kept, rest, pos, p, was, before)
      modifies this`log, this`queue, all, list, list.Repr
      ensures rest != [] && Going(all, kept', rest[1..], p, p', was, before)
      ensures list.Repr <= old(list.Repr)
    {
      assert rest != [] && rest[0] == all[|all| - |rest|];
      p', kept' := Pass(pos, p, was, before, kept, rest);
    }

    method StartWalk(ghost was: seq<T>, ghost before: seq<Note>) returns (pos: ListHead, p: ListHead)
      requires Valid() && Walking(was, before, [], queue)
      ensures Going(queue, [], queue, pos, p, was, before)
    {
      assert queue[0..] == queue;
      pos, p := StartLinks();
    }

    method StartLinks() returns (pos: ListHead, p: ListHead)
      requires list.Valid() && Listed()
      ensures OnWalk([], queue, pos, p)
    {
      assert [] + queue == queue;
      pos := list.NextOf(list.head, 0);
      p := list.NextOf(pos, 1);
    }

    /** At the head again the walk has passed them all. */
    lemma WalkOver(all: seq<Timer>, kept: seq<Timer>, rest: seq<Timer>, pos: ListHead, p: ListHead,
                   was: seq<T>, before: seq<Note>)
      requires Going(all, kept, rest, pos, p, was, before) && pos == list.head
      ensures Valid() && queue == kept && Walking(was, before, kept, [])
    {
      assert rest == [] && kept + rest == kept;
    }

    /** timers_tick walks the list. */
    method WalkTimers(ghost was: seq<T>, ghost before: seq<Note>) returns (ghost kept: seq<Timer>)
      requires Valid() && Walking(was, before, [], queue)
      modifies this`log, this`queue, queue, list, list.Repr
      ensures Valid() && queue == kept && Walking(was, before, kept, [])
    {
      ghost var rest, all := queue, queue;
      var pos, p := StartWalk(was, before);
      kept := [];
      while pos != list.head
        invariant Going(all, kept, rest, pos, p, was, before) && list.Repr <= old(list.Repr)
        decreases |rest|
      {
        var next := p;
        p, kept := GoOn(pos, p, all, was, before, kept, rest);
        pos, rest := next, rest[1..];
      }
      WalkOver(all, kept, rest, pos, p, was, before);
    }

    method TickTimers()
      requires Valid()
      modifies this`log, this`queue, queue, list, list.Repr
      ensures Valid()
      ensures Model() == TimerState(tick, TickQueue(form, old(Values(queue)), tick), nextId,
                                    old(log) + TickNotes(form, old(Values(queue)), tick))
    {
      ghost var was, before := Values(queue), log;
      BeforeWalk(queue, was);
      ghost var kept := WalkTimers(was, before);
      AfterWalk(was, before, kept);
    }

    method AdvanceTick()
      requires Valid()
      modifies this`tick
      ensures Valid() && tick == old(tick) + 10 && Values(queue) == old(Values(queue))
    {
      tick := tick + 10;
    }

    /** timers_start advances the tick and walks. */
    method TimersTick()
      requires Valid()
      modifies this`tick, this`log, this`queue, queue, list, list.Repr
      ensures Valid() && Model() == Step(form, old(Model()), Tick)
    {
      StepTick(form, Model());
      AdvanceTick();
      TickTimers();
    }

    lemma BeforeWalk(q: seq<Timer>, was: seq<T>)
      requires NoRepeat(q) && was == Values(q)
      ensures Walking(was, log, [], q)
    {
      assert [] + q == q && Values([]) == [];
      assert [] + TickQueue(form, was, tick) == TickQueue(form, was, tick);
    }

    lemma AfterWalk(was: seq<T>, before: seq<Note>, kept: seq<Timer>)
      requires Walking(was, before, kept, [])
      ensures Values(kept) == TickQueue(form, was, tick) && log == before + TickNotes(form, was, tick)
    {
      assert Values(kept) + [] == Values(kept) && log + [] == log;
    }
  }
}
