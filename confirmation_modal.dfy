/** The state record behind the confirmation dialog, and the three operations that
    update it: showing a configured dialog, hiding it (refused while its action is in
    progress) and raising or lowering the in-progress flag. */
module ConfirmationModal {

  datatype Variant = Default | Destructive

  /** The confirm callback, identified by an opaque handle; it is stored and handed back,
      never called here. */
  type Callback = nat

  const NoOp: Callback := 0

  /** `ConfirmationModalState`. */
  datatype ModalState = ModalState(
    isOpen: bool,
    title: string,
    description: string,
    confirmText: string,
    cancelText: string,
    onConfirm: Callback,
    isLoading: bool,
    variant: Variant)

  /** `Omit<ConfirmationModalState, "isOpen">`: what a caller of `showModal` supplies. */
  datatype ModalConfig = ModalConfig(
    title: string,
    description: string,
    confirmText: string,
    cancelText: string,
    onConfirm: Callback,
    isLoading: bool,
    variant: Variant)

  /** Every field of a state except `isOpen`. */
  function ConfigOf(m: ModalState): ModalConfig
  {
    ModalConfig(m.title, m.description, m.confirmText, m.cancelText, m.onConfirm, m.isLoading, m.variant)
  }

  const InitialState := ModalState(false, "", "", "Confirm", "Cancel", NoOp, false, Default)

  /** `showModal(config)`: the dialog opens with exactly the supplied configuration,
      whatever the previous state was. */
  function Shown(config: ModalConfig): (r: ModalState)
    ensures r.isOpen && ConfigOf(r) == config
  {
    ModalState(true, config.title, config.description, config.confirmText, config.cancelText,
               config.onConfirm, config.isLoading, config.variant)
  }

  /** `hideModal`: closes the dialog unless its action is in progress; nothing else changes. */
  function Hidden(m: ModalState): (r: ModalState)
    ensures ConfigOf(r) == ConfigOf(m)
    ensures r.isOpen <==> m.isOpen && m.isLoading
  {
    if m.isLoading then m else m.(isOpen := false)
  }

  /** `setLoading(b)`: only the in-progress flag changes. */
  function WithLoading(m: ModalState, isLoading: bool): (r: ModalState)
    ensures r.isLoading == isLoading && r.isOpen == m.isOpen
    ensures ConfigOf(r) == ConfigOf(m).(isLoading := isLoading)
  {
    m.(isLoading := isLoading)
  }

  /** A state is determined by its `isOpen` and its configuration. */
  lemma {:induction false} StateDeterminedByConfig(a: ModalState, b: ModalState)
    requires a.isOpen == b.isOpen && ConfigOf(a) == ConfigOf(b)
    ensures a == b
  {
  }

  /** While loading, hiding leaves the state exactly as it was. */
  lemma HideWhileLoadingIsNoOp(m: ModalState)
    requires m.isLoading
    ensures Hidden(m) == m
  {
    StateDeterminedByConfig(Hidden(m), m);
  }

  /** Hiding twice is hiding once. */
  lemma HideIdempotent(m: ModalState)
    ensures Hidden(Hidden(m)) == Hidden(m)
  {
    StateDeterminedByConfig(Hidden(Hidden(m)), Hidden(m));
  }

  /** When not loading, hiding closes the dialog and keeps every other field. */
  lemma HideWhenIdleCloses(m: ModalState)
    requires !m.isLoading
    ensures Hidden(m) == m.(isOpen := false)
  {
    StateDeterminedByConfig(Hidden(m), m.(isOpen := false));
  }

  /** The confirm flow of a destructive action: show, raise loading, try to hide (refused),
      lower loading, hide. The dialog ends closed, with the shown configuration. */
  lemma ConfirmFlow(config: ModalConfig)
    requires !config.isLoading
    ensures var busy := WithLoading(Shown(config), true);
      && Hidden(busy) == busy && busy.isOpen
      && var done := Hidden(WithLoading(Hidden(busy), false));
      !done.isOpen && ConfigOf(done) == config
  {
  }

  /** The hook seen as an object: `modal` is its one piece of state. */
  class ConfirmationModalHook {
    var modal: ModalState

    constructor ()
      ensures modal == InitialState
      ensures !modal.isOpen && !modal.isLoading && modal.variant == Default
      ensures modal.confirmText == "Confirm" && modal.cancelText == "Cancel"
    {
      modal := InitialState;
    }

    method ShowModal(config: ModalConfig)
      modifies this
      ensures modal == Shown(config)
      ensures modal.isOpen && ConfigOf(modal) == config
    {
      modal := ModalState(true, config.title, config.description, config.confirmText,
                          config.cancelText, config.onConfirm, config.isLoading, config.variant);
    }

    method HideModal()
      modifies this
      ensures modal == Hidden(old(modal))
      ensures old(modal).isLoading ==> modal == old(modal)
      ensures !old(modal).isLoading ==> modal == old(modal).(isOpen := false)
    {
      if modal.isLoading {
        return;
      }
      modal := modal.(isOpen := false);
    }

    method SetLoading(isLoading: bool)
      modifies this
      ensures modal == WithLoading(old(modal), isLoading)
      ensures modal == old(modal).(isLoading := isLoading)
    {
      modal := modal.(isLoading := isLoading);
    }
  }
}
