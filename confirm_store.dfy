/**
 * The global confirmation dialog: its store (`src/store/confirmStore.js`),
 * four fields overwritten as a whole, and the dialog component
 * (`src/components/common/GlobalConfirmDialog.jsx`) that renders them and
 * settles the stored promise.
 */
module ConfirmStore {
  import opened Wrappers

  /**
   * The options object; an absent entry is `undefined`, so it takes its
   * default when destructured. `{}` has every entry absent.
   */
  datatype Options = Options(confirmText: Option<string>, cancelText: Option<string>, kind: Option<string>)

  const NoOptions := Options(None, None, None)

  /** A pending promise's `resolve`, identified by the promise it settles. */
  type Resolver = nat

  /** The store's state as a value. */
  datatype ConfirmState = ConfirmState(isOpen: bool, message: string, options: Options, resolve: Option<Resolver>)

  const Closed := ConfirmState(false, "", NoOptions, None)

  /** `openConfirm(m, o, r)`: the previous contents, a stored resolver included, are overwritten. */
  function Open(s: ConfirmState, message: string, options: Options, r: Option<Resolver>): ConfirmState {
    ConfirmState(true, message, options, r)
  }

  /** `closeConfirm`. */
  function Close(s: ConfirmState): ConfirmState {
    Closed
  }

  /** One settlement of a pending confirmation. */
  datatype Settlement = Settlement(resolver: Resolver, answer: bool)

  /**
   * A click on Confirm (`answer` true) or Cancel (false): the stored
   * resolver, if any, is called with the answer, then the store closes.
   */
  function Answer(s: ConfirmState, answer: bool): (Option<Settlement>, ConfirmState) {
    (if s.resolve.Some? then Some(Settlement(s.resolve.value, answer)) else None, Close(s))
  }

  /** Closing is idempotent, and opening then closing returns to the initial state. */
  lemma CloseIdempotentAndRestores(s: ConfirmState, m: string, o: Options, r: Option<Resolver>)
    ensures Close(Close(s)) == Close(s) == Closed
    ensures Close(Open(s, m, o, r)) == Closed
  {
  }

  /**
   * Opening while already open replaces the resolver: the next answer
   * settles only the latest promise, and the earlier one is never settled by
   * the store.
   */
  lemma ReopenDropsEarlierResolver(m1: string, o1: Options, r1: Resolver, m2: string, o2: Options, r2: Resolver, answer: bool)
    requires r1 != r2
    ensures var s := Open(Open(Closed, m1, o1, Some(r1)), m2, o2, Some(r2));
      Answer(s, answer).0 == Some(Settlement(r2, answer))
    ensures var s := Open(Open(Closed, m1, o1, Some(r1)), m2, o2, Some(r2));
      Answer(Answer(s, answer).1, !answer).0 == None
  {
  }

  /** What the dialog shows while open: the message, both labels and the colour kind. */
  datatype DialogView = DialogView(message: string, confirmText: string, cancelText: string, kind: string)

  /** The component: nothing while closed; otherwise the options with their defaults. */
  function Render(s: ConfirmState): Option<DialogView> {
    if !s.isOpen then None
    else Some(DialogView(
      s.message,
      s.options.confirmText.GetOr("Confirm"),
      s.options.cancelText.GetOr("Cancel"),
      s.options.kind.GetOr("warning")))
  }

  /** Missing options default to 'Confirm', 'Cancel' and 'warning'; given ones are used as they are. */
  lemma RenderDefaults(m: string, o: Options)
    ensures Render(Open(Closed, m, NoOptions, None)) == Some(DialogView(m, "Confirm", "Cancel", "warning"))
    ensures o.confirmText.Some? ==> Render(Open(Closed, m, o, None)).value.confirmText == o.confirmText.value
    ensures o.cancelText.Some? ==> Render(Open(Closed, m, o, None)).value.cancelText == o.cancelText.value
    ensures o.kind.Some? ==> Render(Open(Closed, m, o, None)).value.kind == o.kind.value
  {
  }

  class Store {
    var isOpen: bool
    var message: string
    var options: Options
    var resolve: Option<Resolver>

    function State(): ConfirmState
      reads this
    {
      ConfirmState(isOpen, message, options, resolve)
    }

    constructor ()
      ensures State() == Closed
    {
      isOpen, message, options, resolve := false, "", NoOptions, None;
    }

    method OpenConfirm(m: string, o: Options, r: Option<Resolver>)
      modifies this
      ensures State() == Open(old(State()), m, o, r)
      ensures isOpen && message == m && options == o && resolve == r
    {
      isOpen, message, options, resolve := true, m, o, r;
    }

    method CloseConfirm()
      modifies this
      ensures State() == Closed
    {
      isOpen, message, options, resolve := false, "", NoOptions, None;
    }
  }

  /** The mounted dialog, with the settlements it has made. */
  class Dialog {
    const store: Store
    var settlements: seq<Settlement>

    constructor (s: Store)
      ensures store == s && settlements == []
    {
      store, settlements := s, [];
    }

    /** `handleConfirm` (`answer` true) and `handleCancel` (false); the buttons exist only while open. */
    method Handle(answer: bool)
      requires store.isOpen
      modifies this, store
      ensures store.State() == Answer(old(store.State()), answer).1
      ensures var settled := Answer(old(store.State()), answer).0;
        settlements == old(settlements) + (if settled.Some? then [settled.value] else [])
    {
      if store.resolve.Some? {
        settlements := settlements + [Settlement(store.resolve.value, answer)];
      }
      store.CloseConfirm();
    }
  }
}
