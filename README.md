# Knockout Deferred Updates, modelled in Dafny

This project models the core of the Knockout "Deferred Updates" plugin
(`knockout-deferred-updates.js`). The plugin does four things:

- **`ko.tasks`**: a re-entrant queue of deferred evaluator calls.
  - `processDelayed` appends records to `evaluatorsArray`. It refuses a
    distinct duplicate and asks the host for one native flush.
  - `processImmediate` opens a checkpoint on `taskStack`, runs an evaluator,
    and flushes whatever was queued since the checkpoint.
  - The native flush (`processEvaluators()`) runs the whole list by index
    while the list may still grow, then clears it.
  - Two sweeps run pending records by DOM node: those whose node equals a
    given one, or all that carry a node.
- **The replacement `subscribe`**: it routes each notification either into
  the queue (as a non-distinct task) or straight to the callback, with
  dependency detection suspended (`ko.ignoreDependencies`).
- **`newComputed`**: a dependency-tracking node with these operations:
  - `evaluateImmediate`: guard, `disposeWhen`, dispose then resubscribe,
    and the `beforeChange`/`change` notifications;
  - `evaluatePossiblyAsync`: the throttle, deferred or immediate route, and
    the "dirty" notification;
  - `addDependency`, `get`, `set`, `dispose`, and construction.
- **The `throttle` extender**: it throttles writes of a writeable target and
  evaluations of anything else.

The model is built in three layers:

1. **Pure transition functions** over values of the whole state:
   - `TaskSpec` over the queue state `QState`;
   - `ComputedSpec` over a `World`, which holds one node, the Knockout
     runtime, the queue and the host timers;
   - `Routing` for the subscribe decision.
2. **Classes** that hold the same state in fields and update it in place,
   the way the JavaScript does:
   - `Tasks.Queue`;
   - `Knockout.Runtime`;
   - `Host.Timers`;
   - `Computed.ComputedNode`;
   - `Throttle.ThrottledWriter`.

   Each method is proved to perform the transition of the same name.
3. **Lemmas** (`TaskProperties`, `ComputedProperties` and those in
   `Routing`, `Knockout` and `Host`) state what the plugin promises about
   those transitions.

How the outside world is represented:

- **Evaluators** are opaque ids. What an evaluator does when run is a
  `Behaviour`: for each invocation, the `processDelayed` calls it makes, in
  order, whether it throws, and the value it returns.
- **The read function of a computed** is described by a `ReadOutcome`: the
  sources it registers, in order, and a value or an exception.
- **Record identity** is a serial number. A log `runs` records every
  evaluator run the queue makes, so "which records ran" can be stated.
- **Timers** are opaque handles in a table of pending timers. A timer fires
  when the caller says so; time is not modelled.
- **Notifications** a computed sends to its own subscribers are appended to
  a log `notes`. They are not delivered.

Where the repository's behaviour tests expect something the source does not
do, the model follows the source:

- A second distinct `processDelayed` of a pending evaluator is refused. The
  record keeps the first call's arguments (`knockout-deferred-updates.js:69-72`),
  although `spec/taskBehaviors.js:52-63` expects the last ones. See
  `TaskProperties.DistinctKeepsFirstArguments`.
- When no top-level flush runs, the duplicate scan starts at index 0
  (`knockout-deferred-updates.js:52`). A record pending outside a
  `processImmediate` scope therefore suppresses a distinct call inside the
  scope, although `spec/taskBehaviors.js:106-121` expects a second record.
  See `TaskProperties.OuterRecordSuppressesScopeCall`.
- The subscribe wrapper enqueues with `distinct` false
  (`knockout-deferred-updates.js:177`). Two change notifications before a
  flush therefore queue two tasks, although
  `spec/deferredUpdatesBehaviors.js:4-17` expects one. See
  `Routing.TwoNotificationsQueueTwoTasks`.
- Cleanup happens only on a normal exit:
  - `_isBeingEvaluated` is cleared only when the read returns, so a read
    that throws wedges the node (`ComputedProperties.ReadThrowWedgesNode`);
  - `deferUpdates` is restored only when the write function returns
    (`ComputedProperties.SetContract`).

## Model

| member | source | states |
|---|---|---|
| TaskProperties.DelayedOutcome | knockout-deferred-updates.js:51-78 | processDelayed refuses exactly a distinct call whose evaluator has a record at or after the scan start, and then changes nothing. Otherwise it appends exactly one record holding the evaluator and the extras and returns true. It requests a native flush exactly when it appends while no checkpoint is open, no top-level flush runs and none is outstanding. |
| TaskProperties.PendingEvaluatorIsDuplicate | knockout-deferred-updates.js:51-72 | With no top-level flush running, any pending record with the same evaluator, at any index, makes a distinct call a refused no-op. |
| TaskProperties.DelayedInv | knockout-deferred-updates.js:68-78 | processDelayed keeps the queue's consistency conditions: checkpoints within the list, increasing serials, and one native flush outstanding exactly when the handler is set. |
| TaskProperties.RunCallsAppend | knockout-deferred-updates.js:73-76 | The processDelayed calls of one evaluator run only append records, numbered consecutively. While something holds a native flush back they leave the flush bookkeeping untouched. |
| TaskProperties.FlushBookkeeping | knockout-deferred-updates.js:28-33 | A flush loop leaves the handler and the outstanding-flush count alone. A scope flush leaves indexProcessing alone. Records appended during the loop are numbered consecutively. |
| TaskProperties.FlushRunsInOrder | knockout-deferred-updates.js:25-33 | A flush runs records strictly by increasing index, to the current end of the list, including records appended by running evaluators. Its runs are a prefix of the records from the start index, and all of them when no evaluator throws. |
| TaskProperties.ImmediateRestoresQueue | knockout-deferred-updates.js:14-66 | processImmediate leaves the pending list (same records, same length), the checkpoint stack, indexProcessing and the native-flush bookkeeping as they were on entry, whether the evaluator returns or throws. |
| TaskProperties.ImmediateRunsItsWork | knockout-deferred-updates.js:18-66 | The runs made inside a processImmediate scope are exactly the records appended during it, in order of appending, whenever its closing flush completes (also when the scope's own evaluator threw); otherwise a prefix of them. Records pending before the checkpoint are never run (and, by ImmediateRestoresQueue, never removed). |
| TaskProperties.ImmediateInv | knockout-deferred-updates.js:59-66 | processImmediate keeps the queue's consistency conditions. |
| TaskProperties.NativeFlushEmptiesQueue | knockout-deferred-updates.js:34-49 | A native flush ends with an empty list, indexProcessing and the handler cleared and no flush outstanding, even when an evaluator throws. It runs the records pending on entry and then those appended meanwhile, in index order; all of them when nothing throws. |
| TaskProperties.AtMostOneNativeFlush | knockout-deferred-updates.js:74-76 | In every consistent state at most one native flush is outstanding, and one is outstanding exactly when evaluatorHandler is set. |
| TaskProperties.SweepRunsSelected | knockout-deferred-updates.js:87-103 | A sweep runs, in index order and without this or arguments, exactly the selected records that were pending when it started (a prefix if one throws). It never runs a record appended during the sweep and removes nothing. |
| TaskProperties.SweepInv | knockout-deferred-updates.js:87-103 | A sweep keeps the queue's consistency conditions. |
| TaskProperties.DistinctKeepsFirstArguments | knockout-deferred-updates.js:69-73 | Two distinct processDelayed calls of one evaluator before a flush give one run, with the first call's arguments. |
| TaskProperties.OuterRecordSuppressesScopeCall | knockout-deferred-updates.js:51-66 | A record pending outside a processImmediate scope makes the scope's distinct call of the same evaluator a duplicate. The scope runs nothing and the pending record keeps its arguments. |
| Tasks.Queue.constructor | knockout-deferred-updates.js:12 | The queue starts empty: no records, no checkpoints, no flush. |
| Tasks.Queue.PushTaskState | knockout-deferred-updates.js:14-16 | Pushes the current list length as a checkpoint. |
| Tasks.Queue.PopTaskState | knockout-deferred-updates.js:18-22 | Pops the checkpoint and flushes from it when the list grew past it. |
| Tasks.Queue.ProcessEvaluators | knockout-deferred-updates.js:24-44 | Runs the loop and then the finally block. A scope flush truncates the list to the checkpoint. A top-level flush clears the list, indexProcessing and the handler. |
| Tasks.Queue.RunFrom | knockout-deferred-updates.js:28-33 | The for loop re-reads the list length on each step and marks indexProcessing in a top-level flush. It performs the specified FlushFrom. |
| Tasks.Queue.RunRecord | knockout-deferred-updates.js:29-32 | One pass of the loop body: a top-level flush records the index in indexProcessing, then the record's evaluator runs with its own this and arguments. |
| Tasks.Queue.NativeFlush | knockout-deferred-updates.js:46-49 | The host's flush callback consumes the outstanding flush and runs processEvaluators from 0. |
| Tasks.Queue.IsEvaluatorDuplicate | knockout-deferred-updates.js:51-56 | The loop returns true exactly when a record with this evaluator sits at or after indexProcessing, or index 0 when no top-level flush runs. |
| Tasks.Queue.ProcessDelayed | knockout-deferred-updates.js:68-78 | Performs Delayed (see DelayedOutcome) with distinct defaulting to true and keeps the queue consistent. |
| Tasks.Queue.RunEvaluator | knockout-deferred-updates.js:31-32 | Logs one run of an evaluator, performs its processDelayed calls and reports whether it threw and what it returned. |
| Tasks.Queue.ProcessImmediate | knockout-deferred-updates.js:59-66 | Performs Immediate. Records, the checkpoint stack, indexProcessing and the handler are unchanged afterwards, and the queue stays consistent. |
| Tasks.Queue.MakeProcessedCallback | knockout-deferred-updates.js:80-84 | The returned callback wraps the given evaluator. |
| Tasks.Queue.CallProcessedCallback | knockout-deferred-updates.js:81-83 | Calling the callback is processImmediate of its evaluator with the call's this and arguments. |
| Tasks.Queue.EvaluateAsynchronously | knockout-deferred-updates.js:105-107 | Sets one host timer for the evaluator and returns its handle. |
| Tasks.Queue.RunTimer | knockout-deferred-updates.js:106 | A fired timer is no longer pending, and its evaluator runs inside a processImmediate scope. |
| Tasks.Queue.ProcessDeferredBindingUpdatesForNode | knockout-deferred-updates.js:87-94 | Sweeps the records whose node equals the given one, over the length on entry, and keeps the queue consistent. |
| Tasks.Queue.ProcessAllDeferredBindingUpdates | knockout-deferred-updates.js:96-103 | Sweeps the records that carry any node, over the length on entry, and keeps the queue consistent. |
| Tasks.Queue.SweepRecords | knockout-deferred-updates.js:88-102 | The sweep loop stops at the length on entry and performs Sweep. |
| Host.SetTimer | knockout-deferred-updates.js:106 | A new timer goes into the pending table under its handle, and nothing else changes. |
| Host.ClearTimer | knockout-deferred-updates.js:230 | clearTimeout removes exactly the given handle. Clearing null, or a handle that already fired, does nothing. |
| Host.SetTimerFresh | knockout-deferred-updates.js:106 | A handle handed out was not pending before, so setting a timer never replaces another. |
| Host.Timers.SetTimeout | knockout-deferred-updates.js:106 | Performs SetTimer in place. |
| Host.Timers.ClearTimeout | knockout-deferred-updates.js:230 | Performs ClearTimer in place. |
| Host.Timers.Fire | knockout-deferred-updates.js:106 | A fired timer leaves the table and hands back its callback. |
| Routing.Wrap | knockout-deferred-updates.js:173-185 | A callback whose source mentions throttleEvaluation is handed to Knockout unwrapped. Every other callback is wrapped, keeping its this, the event name and the subscription's flag. |
| Routing.Deliver | knockout-deferred-updates.js:175-180 | A deferred notification is a non-distinct processDelayed of the callback, with this and [value]. Otherwise the callback is invoked with this and [value]. |
| Routing.DeferredExactly | knockout-deferred-updates.js:176 | A notification is deferred exactly when the callback is wrapped, the flag is true (or unset while the global switch is on), and the subscription listens to "change". It is direct exactly when unwrapped. |
| Routing.LocalSettingWins | knockout-deferred-updates.js:176 | A true local setting forces deferred mode, a false one forbids it, and an unset one follows the global switch. |
| Routing.TwoNotificationsQueueTwoTasks | knockout-deferred-updates.js:177 | Two deferred notifications before a flush queue two records, one per value, in notification order. |
| Knockout.DropRemovesExactly | knockout-deferred-updates.js:217-219 | Disposing subscriptions by handle removes exactly those and keeps every other. |
| Knockout.FreshFrameIsolates | knockout-deferred-updates.js:160-167 | Reads registered in a fresh frame leave the callers' frames untouched. |
| Knockout.Runtime.Subscribe | knockout-deferred-updates.js:173-185 | The replacement subscribe registers the handler chosen by Wrap on the event named (or "change"). |
| Knockout.Runtime.IgnoreDependencies | knockout-deferred-updates.js:160-167 | ko.ignoreDependencies leaves the runtime state (the frames above all) exactly as it was. |
| Knockout.Runtime.Notify | knockout-deferred-updates.js:175-180 | The wrapper either makes the non-distinct processDelayed and nothing else, or calls the callback under ignoreDependencies and leaves the queue alone. The queue stays consistent. |
| ComputedSpec.Capture | knockout-deferred-updates.js:244-263 | Capturing a read only appends to the node's subscriptions and touches only the innermost frame. |
| ComputedProperties.CaptureSubscribesOncePerSource | knockout-deferred-updates.js:244-263 | A read in a fresh frame subscribes the node once to each distinct registered source, in order of first registration, with consecutive fresh handles. |
| ComputedProperties.EvaluateImmediateOutcome | knockout-deferred-updates.js:249-274 | evaluateImmediate returns false and changes nothing exactly when the node is evaluating or clean. Otherwise it disposes when disposeWhen says so, and it returns true exactly when the read returns. It never touches the queue, the timers or the callers' frames. |
| ComputedProperties.EvaluatedResubscribes | knockout-deferred-updates.js:216-274 | A successful run notifies beforeChange with the old value and then change with the new one, stores the value and clears both flags. It leaves exactly one subscription per registered source (dirty for a computed, change otherwise), every older one disposed. |
| ComputedProperties.ReadThrowWedgesNode | knockout-deferred-updates.js:259-272 | A read that throws leaves _isBeingEvaluated set and the node clean, so every later evaluateImmediate is a no-op. |
| ComputedProperties.BusyNodeReadsStale | knockout-deferred-updates.js:311-317 | A node that is evaluating answers a read with its stored value and does not change. |
| ComputedProperties.DisposeIsIdempotent | knockout-deferred-updates.js:216-222 | Disposal empties the dependency list, disposes each of its subscriptions and clears _needsEvaluation. A second disposal changes nothing. |
| ComputedProperties.ThrottleRoute | knockout-deferred-updates.js:225-241 | With a positive throttle, a notification replaces the pending throttle timer by a fresh one for evaluateImmediate and queues nothing. It notifies "dirty" only if the node was clean. |
| ComputedProperties.DeferredRoute | knockout-deferred-updates.js:225-238 | In deferred mode, a notification makes one distinct processDelayed carrying the node's DOM node. It notifies "dirty" exactly when a task was queued. |
| ComputedProperties.ImmediateRoute | knockout-deferred-updates.js:234-241 | Otherwise the node evaluates at once and queues nothing. An exception of the read propagates. "dirty" is notified exactly when evaluateImmediate returned true, and the throttle timer is then cleared if a throttle is set. |
| ComputedProperties.DelayedMakesDuplicate | knockout-deferred-updates.js:51-78 | After a distinct processDelayed, its evaluator is a duplicate in the queue. |
| ComputedProperties.DeferredNotificationsCoalesce | knockout-deferred-updates.js:225-241 | In deferred mode, a second notification before the flush changes nothing: no second task and no second "dirty". |
| ComputedProperties.GetReturnsLatest | knockout-deferred-updates.js:311-317 | Reading evaluates first only when dirty, returns the stored value (the new one after a successful evaluation) and registers the node in the caller's frame. It throws exactly when the evaluation's read throws. |
| ComputedProperties.ReactionsAreImmediate | knockout-deferred-updates.js:298-303 | With deferUpdates false and no positive throttle, every notification caused by the write evaluates the node at once: nothing is queued, a node not already evaluating is not left evaluating unless a read threw, and when the last notification's read returns (and disposeWhen is false) the node is clean and holds that value. |
| ComputedProperties.ReactionsQueueNothing | knockout-deferred-updates.js:225-234 | With deferUpdates false, no notification queues a task, whatever the throttle. |
| ComputedProperties.ReactionsKeepDeferSetting | knockout-deferred-updates.js:300-305 | Notifications during the write never change the node's deferUpdates setting. |
| ComputedProperties.SetContract | knockout-deferred-updates.js:295-309 | Writing throws without a write function and changes nothing. With one, deferUpdates is restored when the write returns and stays false when it throws, and nothing is queued. |
| ComputedProperties.NewComputedContract | knockout-deferred-updates.js:191-320 | Construction throws when the resolved read is not a function, and then builds nothing. With deferEvaluation it leaves the node dirty with no dependencies. Otherwise the initial read runs: one that returns leaves the node clean, holding the value, subscribed once per registered source, with nothing notified; one that throws makes construction throw and leaves a node still marked as evaluating and dirty, whose subscriptions to the sources registered before the throw are live. |
| ComputedProperties.NewComputedIssuesHandles | knockout-deferred-updates.js:276-285 | Every subscription of a node that construction builds has a handle already issued by the runtime. |
| ComputedProperties.OperationsKeepHandlesIssued | knockout-deferred-updates.js:225-309 | Notifications, reads, writes, disposal and the throttle timer keep every subscription's handle below the next handle to issue, so EvaluatedResubscribes applies to every node reachable from construction. |
| ComputedProperties.ResolveRules | knockout-deferred-updates.js:197-209 | A function first argument is the read. An options object replaces the third argument. A falsy first argument defers to the third argument's read. Anything else is refused. |
| Computed.ComputedNode.constructor | knockout-deferred-updates.js:192-195 | A new node holds no value, is dirty, is not evaluating, has no dependencies and no timer. |
| Computed.ComputedNode.SetDeferUpdates | knockout-deferred-updates.js:232 | The application's deferUpdates setting replaces the node's and changes nothing else. |
| Computed.ComputedNode.DisposeAllSubscriptionsToDependencies | knockout-deferred-updates.js:216-222 | The loop disposes every dependency subscription, then empties the list and clears _needsEvaluation. |
| Computed.ComputedNode.Dispose | knockout-deferred-updates.js:322 | Performs ComputedSpec.Dispose (see DisposeIsIdempotent). |
| Computed.ComputedNode.AddDependency | knockout-deferred-updates.js:244-247 | Subscribes evaluatePossiblyAsync, unwrapped, on the event EventFor chooses, and appends the subscription. |
| Computed.ComputedNode.CaptureRead | knockout-deferred-updates.js:244-263 | The read's registrations, one at a time, reach addDependency when new to the frame. |
| Computed.ComputedNode.ReadInNewFrame | knockout-deferred-updates.js:262-268 | Begins a frame, captures the read and ends the frame. |
| Computed.ComputedNode.EvaluateImmediate | knockout-deferred-updates.js:249-274 | Performs ComputedSpec.EvaluateImmediate (see EvaluateImmediateOutcome and EvaluatedResubscribes). |
| Computed.ComputedNode.EvaluateInitial | knockout-deferred-updates.js:276-285 | Performs ComputedSpec.EvaluateInitial. The value is stored and the flags cleared only when the read returns. |
| Computed.ComputedNode.EvaluatePossiblyAsync | knockout-deferred-updates.js:225-242 | Performs PossiblyAsync (see ThrottleRoute, DeferredRoute and ImmediateRoute) and keeps the queue consistent. |
| Computed.ComputedNode.RestartThrottleTimer | knockout-deferred-updates.js:230-231 | Clears the previous throttle timer and records the handle of a new one for evaluateImmediate. |
| Computed.ComputedNode.NotifyDirty | knockout-deferred-updates.js:237-241 | Performs AfterRoute: "dirty" with the stored value when the route reported work, then clears the throttle timer if the node is clean and a throttle is set. |
| Computed.ComputedNode.FireThrottleTimer | knockout-deferred-updates.js:231 | The fired throttle timer leaves the table and evaluateImmediate runs. |
| Computed.ComputedNode.Get | knockout-deferred-updates.js:311-317 | Performs ComputedSpec.Get (see GetReturnsLatest). |
| Computed.ComputedNode.Set | knockout-deferred-updates.js:295-309 | The loop over the write's notifications performs ComputedSpec.Set (see SetContract). |
| Computed.NewComputed | knockout-deferred-updates.js:191-320 | Builds no node exactly when the read is not a function. Otherwise it builds a fresh node in the state ComputedSpec.NewComputed gives, also when the initial read throws and construction throws with it (see NewComputedContract). |
| Throttle.ThrottledWriter.constructor | knockout-deferred-updates.js:373-374 | A new throttled writer has no pending write-through. |
| Throttle.ThrottledWriter.Write | knockout-deferred-updates.js:376-381 | Each write clears the pending write-through and sets one new timer carrying its value, so exactly one write-through, the latest, stays pending. |
| Throttle.ThrottledWriter.Fire | knockout-deferred-updates.js:378-380 | The write-through that fires is the latest write's, and it hands that write's value to the target. |
| Throttle.ThrottleExtender | knockout-deferred-updates.js:367-389 | A writeable target gets a fresh throttled writer with nothing pending. Any other target gets throttleEvaluation set to the timeout and is returned as it is. |

## Left out

- The name discovery of minified Knockout internals (lines 112-155, 353-362) is left out. It has no behaviour of its own. The
  `callback.toString().indexOf('throttleEvaluation')` test of line 174 is the
  boolean `mentionsThrottle`.
- Host timing is not modelled: no elapsed time, no `setImmediate` versus `setTimeout` choice. The native flush request is the counter
  `nativePending`. Timers are opaque handles that fire when the caller
  says so.
- DOM lifetime hooks are left out: `disposeWhenNodeIsRemoved`, `domNodeDisposal` and the document-attachment test
  (lines 324-339). What `disposeWhen()` returns at each evaluation is the
  parameter `disposeNow`, and the DOM node of a computed is an opaque token.
- Knockout's observables and `notifySubscribers` are external. Subscriptions are a list in
  `Knockout.Runtime`, and the notifications a computed sends to its own
  subscribers are logged in `notes` rather than delivered.
- Tasks.Queue.ProcessEvaluators: a flush runs at most `fuel` records. Running out
  ends the flush through the same `finally` cleanup as an exception (the
  outcome `OutOfFuel`), where the JavaScript would go on running.
- Tasks.Queue.RunEvaluator: an evaluator's script is a list of `processDelayed`
  calls. It does not open nested `processImmediate` scopes or sweeps. Every
  `Queue` contract holds in every consistent state, which covers nesting
  between calls.
- Computed.ComputedNode.EvaluateImmediate: the read function's other effects
  (writes to observables it reads) are not modelled. Only its registrations and its value or
  exception are.
- Computed.ComputedNode.Set: the write function's effect on the node is the
  list of notifications it triggers (`WriteScript.reactions`). What it
  writes elsewhere is not modelled.
- Computed.ComputedNode.EvaluatePossiblyAsync: `throttleEvaluation` is an
  integer; a string or other non-numeric value is not modelled.
- Knockout.Runtime.Notify: a raw (unwrapped) handler's direct call, and an
  isolated callback's own effects beyond its registrations, are not
  modelled. Exceptions raised by subscribers are not modelled.
- Computed.ComputedNode.FireThrottleTimer: the `processImmediate` scope that
  `ko.evaluateAsynchronously` (line 106) opens around `evaluateImmediate`, and
  its closing flush, are not modelled, since notifications are logged rather
  than delivered to the deferred subscribers that would queue work in it.
- Routing: `Event.Custom(name)` stands for any event name other than an empty
  one, "change", "beforeChange" and "dirty"; the type does not exclude those
  names itself.
- Throttle.ThrottledWriter.Fire: the write-through's call `target(value)` is
  returned as the value to write, not performed on the target.
- Records keep only the extras keys the plugin passes
  (`object`, `args`, `node`). Other keys a caller might merge in are not
  modelled.
