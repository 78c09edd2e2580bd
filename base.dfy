/** Values shared by every part of the model: optional values, the opaque
    JavaScript values that flow through notifications and task records, and
    the identities of the objects the plugin passes around without looking
    inside them. */
module Base {

  datatype Option<T> = None | Some(value: T)

  /** A JavaScript value as the plugin sees it: it only stores, forwards and
      compares values, so their structure does not matter. */
  datatype JsValue = Undefined | Num(n: int) | Str(s: string)

  /** Identity of a callable (an evaluator, a subscription callback). */
  type EvaluatorId = nat

  /** Identity of the object a callback is applied to (its `this`). */
  type Target = nat

  /** Identity of the DOM node a deferred binding update belongs to. */
  type NodeToken = nat
}
