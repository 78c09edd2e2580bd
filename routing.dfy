/** The replacement `ko.subscribable.fn.subscribe`: which subscriptions are
    wrapped, and where the wrapper sends each notification, either into the
    task queue as a non-distinct deferred task or straight to the callback
    with dependency detection suspended. */
module Routing {
  import opened Base
  import opened TaskSpec

  /** A `deferUpdates` setting that may be left unset (`undefined`), set
      true or set false. */
  datatype TriState = Unset | On | Off

  /** Notification events. A subscriber that names no event (an absent or
      empty name) gets "change", written `None` where an event is optional.
      `Custom(name)` stands for any other name: one that is not empty and
      is not "change", "beforeChange" or "dirty". */
  datatype Event = Change | BeforeChange | Dirty | Custom(name: string)

  /** Deferred mode is in effect when the global `ko.computed.deferUpdates`
      is on and the local setting is not false, or the local setting is
      true. */
  predicate DeferEffective(global: bool, local: TriState) {
    (global && local != Off) || local == On
  }

  /** The wrapper defers only "change" notifications (or those of a
      subscription that named no event). */
  predicate IsChangeEvent(event: Option<Event>) {
    event.None? || event == Some(Change)
  }

  /** What Knockout's own `subscribe` is handed: the callback and its `this`
      as given (a callback whose source mentions `throttleEvaluation`), or
      the wrapper, which remembers the callback, its `this`, the event name
      and the subscription's `deferUpdates` setting. */
  datatype Handler =
    | Raw(callback: EvaluatorId, target: Option<Target>)
    | Wrapped(callback: EvaluatorId, target: Option<Target>, event: Option<Event>, deferUpdates: TriState)

  /** The decision of the replacement `subscribe`. */
  function Wrap(callback: EvaluatorId, target: Option<Target>, event: Option<Event>,
                deferUpdates: TriState, mentionsThrottle: bool): (h: Handler)
    ensures h.Raw? <==> mentionsThrottle
    ensures h.callback == callback && h.target == target
  {
    if mentionsThrottle then Raw(callback, target)
    else Wrapped(callback, target, event, deferUpdates)
  }

  /** The event a subscription listens to. */
  function EventOf(event: Option<Event>): Event {
    if event.Some? then event.value else Change
  }

  /** Where one notification with `value` goes:
      - `Direct`: the callback itself is called, with dependency detection
        as it is;
      - `Deferred`: `processDelayed(callback, false, {object, args: [value]})`;
      - `Isolated`: `ko.ignoreDependencies(callback, object, [value])`. */
  datatype Delivery =
    | Direct(inv: Invocation)
    | Deferred(call: Call)
    | Isolated(inv: Invocation)

  function Deliver(global: bool, h: Handler, value: JsValue): (d: Delivery)
    ensures d.Deferred? ==> !d.call.distinct && d.call.extras == Extras(h.target, [value], None)
                            && d.call.evaluator == h.callback
    ensures !d.Deferred? ==> d.inv == Invocation(h.callback, h.target, [value])
  {
    match h
    case Raw(cb, target) => Direct(Invocation(cb, target, [value]))
    case Wrapped(cb, target, event, flag) =>
      if DeferEffective(global, flag) && IsChangeEvent(event)
      then Deferred(Call(cb, false, Extras(target, [value], None)))
      else Isolated(Invocation(cb, target, [value]))
  }

  /** A notification is deferred exactly when the subscription was wrapped,
      deferred mode is in effect for it and it listens to "change". */
  lemma DeferredExactly(global: bool, callback: EvaluatorId, target: Option<Target>, event: Option<Event>,
                        flag: TriState, mentionsThrottle: bool, value: JsValue)
    ensures Deliver(global, Wrap(callback, target, event, flag, mentionsThrottle), value).Deferred?
        <==> !mentionsThrottle && (flag == On || (flag == Unset && global))
             && EventOf(event) == Change
    ensures Deliver(global, Wrap(callback, target, event, flag, mentionsThrottle), value).Direct?
        <==> mentionsThrottle
  {
  }

  /** The local setting overrides the global one in both directions. */
  lemma LocalSettingWins(global: bool)
    ensures DeferEffective(global, On)
    ensures !DeferEffective(global, Off)
    ensures DeferEffective(global, Unset) == global
  {
  }

  /** Because the wrapper enqueues with `distinct` false, two notifications
      before a flush leave two records, one per value, in notification
      order, and neither is refused. */
  lemma TwoNotificationsQueueTwoTasks(q: QState, global: bool, h: Handler, v1: JsValue, v2: JsValue)
    requires Deliver(global, h, v1).Deferred?
    ensures Deliver(global, h, v2).Deferred?
    ensures var (q1, a1) := Delayed(q, Deliver(global, h, v1).call);
            var (q2, a2) := Delayed(q1, Deliver(global, h, v2).call);
            && a1 && a2
            && q2.records == q.records + [Record(q.nextSerial, h.callback, Extras(h.target, [v1], None)),
                                          Record(q.nextSerial + 1, h.callback, Extras(h.target, [v2], None))]
  {
  }
}
