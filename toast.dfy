/** The toast bus: a module-wide set of listeners that `emit` fans out to, and the container that
    collects toasts in a list. A listener is identified with the container whose handler it is. */
module Toasts {
  import Lists

  datatype ToastType = Success | Error | Info

  datatype Toast = Toast(id: string, kind: ToastType, message: string)

  /** The icon a toast is drawn with. */
  datatype Icon = CheckCircle | AlertCircle | InfoCircle

  /** success → check, error → alert, anything else → info. */
  function IconFor(kind: ToastType): (r: Icon)
    ensures r == CheckCircle <==> kind == Success
    ensures r == AlertCircle <==> kind == Error
  {
    if kind == Success then CheckCircle
    else if kind == Error then AlertCircle
    else InfoCircle
  }

  /** Each toast type has its own icon. */
  lemma IconsTellTypesApart(a: ToastType, b: ToastType)
    requires IconFor(a) == IconFor(b)
    ensures a == b
  {
  }

  /** The filter `(t) => t.id !== id`. */
  function KeepsOther(id: string): Toast -> bool {
    (t: Toast) => t.id != id
  }

  /** The list after `remove(id)`. */
  function WithoutToast(ts: seq<Toast>, id: string): (r: seq<Toast>)
    ensures |r| <= |ts|
    ensures forall i :: 0 <= i < |r| ==> r[i] in ts && r[i].id != id
    ensures forall i :: 0 <= i < |ts| && ts[i].id != id ==> ts[i] in r
  {
    Lists.Filter(ts, KeepsOther(id))
  }

  /** `remove` drops exactly the toasts with the id and keeps the others, in their order. */
  lemma WithoutToastExactly(ts: seq<Toast>, id: string, us: seq<Toast>)
    ensures forall i :: 0 <= i < |WithoutToast(ts, id)| ==> WithoutToast(ts, id)[i].id != id
    ensures forall t :: t in ts && t.id != id ==> t in WithoutToast(ts, id)
    ensures WithoutToast(ts + us, id) == WithoutToast(ts, id) + WithoutToast(us, id)
  {
    forall t | t in ts && t.id != id ensures t in WithoutToast(ts, id) {
      var i :| 0 <= i < |ts| && ts[i] == t;
    }
    Lists.FilterConcat(ts, us, KeepsOther(id));
  }

  /** Removing an id that no toast has leaves the list unchanged. */
  lemma WithoutAbsentToast(ts: seq<Toast>, id: string)
    requires forall i :: 0 <= i < |ts| ==> ts[i].id != id
    ensures WithoutToast(ts, id) == ts
  {
    Lists.FilterKeepsAll(ts, KeepsOther(id));
  }

  /** `ToastContainer`'s `toasts` state. */
  class ToastContainer {
    var toasts: seq<Toast>

    constructor ()
      ensures toasts == []
    {
      toasts := [];
    }

    /** The container's listener: `setToasts((prev) => [...prev, t])`. */
    method Append(t: Toast)
      modifies this
      ensures toasts == old(toasts) + [t]
    {
      toasts := toasts + [t];
    }

    /** `remove(id)`: `setToasts((prev) => prev.filter((t) => t.id !== id))`. */
    method Remove(id: string)
      modifies this
      ensures toasts == WithoutToast(old(toasts), id)
    {
      toasts := WithoutToast(toasts, id);
    }
  }

  /** The module-level `listeners` set and the `toast` API over it. */
  class ToastBus {
    var listeners: set<ToastContainer>

    constructor ()
      ensures listeners == {}
    {
      listeners := {};
    }

    /** The container's mount effect: `listeners.add(handler)`. */
    method Subscribe(c: ToastContainer)
      modifies this
      ensures listeners == old(listeners) + {c}
    {
      listeners := listeners + {c};
    }

    /** The container's clean-up: `listeners.delete(handler)`. From then on `Emit` may not touch `c`. */
    method Unsubscribe(c: ToastContainer)
      modifies this
      ensures listeners == old(listeners) - {c}
      ensures c !in listeners
    {
      listeners := listeners - {c};
    }

    /** Every registered container received `ts`, appended in order, and the listener set is unchanged. */
    twostate predicate Delivered(ts: seq<Toast>)
      reads this, listeners
    {
      listeners == old(listeners) && forall c :: c in listeners ==> c.toasts == old(c.toasts) + ts
    }

    /** `emit`: builds one toast and hands that same toast to every listener (`listeners.forEach`).
        Only the registered containers may change, so with no listeners nothing does. */
    method Emit(kind: ToastType, message: string, id: string) returns (t: Toast)
      modifies listeners
      ensures t == Toast(id, kind, message)
      ensures Delivered([t])
      ensures forall c: ToastContainer :: old(allocated(c)) && c !in listeners ==> c.toasts == old(c.toasts)
    {
      t := Toast(id, kind, message);
      var pending := listeners;
      while pending != {}
        invariant pending <= listeners
        invariant forall c :: c in listeners - pending ==> c.toasts == old(c.toasts) + [t]
        invariant forall c :: c in pending ==> c.toasts == old(c.toasts)
        decreases pending
      {
        var c :| c in pending;
        c.Append(t);
        pending := pending - {c};
      }
    }

    /** `toast.success`. */
    method ToastSuccess(message: string, id: string)
      modifies listeners
      ensures Delivered([Toast(id, Success, message)])
      ensures forall c: ToastContainer :: old(allocated(c)) && c !in listeners ==> c.toasts == old(c.toasts)
    {
      var _ := Emit(Success, message, id);
    }

    /** `toast.error`. */
    method ToastError(message: string, id: string)
      modifies listeners
      ensures Delivered([Toast(id, Error, message)])
      ensures forall c: ToastContainer :: old(allocated(c)) && c !in listeners ==> c.toasts == old(c.toasts)
    {
      var _ := Emit(Error, message, id);
    }

    /** `toast.info`. */
    method ToastInfo(message: string, id: string)
      modifies listeners
      ensures Delivered([Toast(id, Info, message)])
      ensures forall c: ToastContainer :: old(allocated(c)) && c !in listeners ==> c.toasts == old(c.toasts)
    {
      var _ := Emit(Info, message, id);
    }
  }
}
