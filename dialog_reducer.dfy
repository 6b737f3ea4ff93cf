/**
 * The dialog reducer (`reducer/renderer/dialog.ts`): an alert or confirm box,
 * updated by merging a partial record into the current one.
 */
module DialogStore {
  import opened Wrappers

  datatype DialogKind = AlertDialog | ConfirmDialog

  datatype Dialog = Dialog(kind: DialogKind, open: bool, message: string)

  /** `Partial<DialogType>`: a field is `None` when the payload does not have it. */
  datatype DialogPatch = DialogPatch(kind: Option<DialogKind>, open: Option<bool>, message: Option<string>)

  /** The actions of `actions/dialog.ts`, and any other action the store dispatches. */
  datatype DialogAction =
    | UpdateDialog(patch: DialogPatch)
    | DialogOkClick
    | DialogCancelClick
    | Unrelated

  function InitialDialog(): (d: Dialog)
    ensures d.kind == AlertDialog && !d.open && d.message == ""
  {
    Dialog(AlertDialog, false, "")
  }

  /** `{ ...state, ...payload }`: the payload's fields win, the others are kept. */
  function Merge(state: Dialog, patch: DialogPatch): (r: Dialog)
    ensures r.kind == (if patch.kind.Some? then patch.kind.value else state.kind)
    ensures r.open == (if patch.open.Some? then patch.open.value else state.open)
    ensures r.message == (if patch.message.Some? then patch.message.value else state.message)
  {
    Dialog(patch.kind.GetOr(state.kind), patch.open.GetOr(state.open), patch.message.GetOr(state.message))
  }

  /** `dialog(state, action)` */
  function DialogReducer(state: Dialog, action: DialogAction): (r: Dialog)
    ensures action.UpdateDialog? ==> r == Merge(state, action.patch)
    ensures !action.UpdateDialog? ==> r == state
  {
    match action
    case UpdateDialog(patch) => Merge(state, patch)
    case _ => state
  }

  /** The store's first call passes no state: the initial one is used. */
  function DialogFrom(state: Option<Dialog>, action: DialogAction): (r: Dialog)
    ensures state.None? ==> r == DialogReducer(InitialDialog(), action)
    ensures state.None? && action.UpdateDialog? ==> r == Merge(InitialDialog(), action.patch)
    ensures state.None? && !action.UpdateDialog? ==> r == InitialDialog()
    ensures state.Some? ==> r == DialogReducer(state.value, action)
  {
    DialogReducer(state.GetOr(InitialDialog()), action)
  }

  /** An empty payload changes nothing. */
  lemma EmptyPatchKeeps(state: Dialog)
    ensures DialogReducer(state, UpdateDialog(DialogPatch(None, None, None))) == state
  {
  }

  /** A payload with every field replaces the whole dialog. */
  lemma FullPatchReplaces(state: Dialog, d: Dialog)
    ensures DialogReducer(state, UpdateDialog(DialogPatch(Some(d.kind), Some(d.open), Some(d.message)))) == d
  {
  }

  /** Dispatching the same update twice is dispatching it once. */
  lemma UpdateIdempotent(state: Dialog, patch: DialogPatch)
    ensures DialogReducer(DialogReducer(state, UpdateDialog(patch)), UpdateDialog(patch)) == DialogReducer(state, UpdateDialog(patch))
  {
  }

  /** The payloads' union, the second's fields taking precedence. */
  function Combine(first: DialogPatch, second: DialogPatch): (r: DialogPatch) {
    DialogPatch(if second.kind.Some? then second.kind else first.kind,
                if second.open.Some? then second.open else first.open,
                if second.message.Some? then second.message else first.message)
  }

  /** Two updates in a row are one update with the combined payload. */
  lemma UpdatesCompose(state: Dialog, first: DialogPatch, second: DialogPatch)
    ensures DialogReducer(DialogReducer(state, UpdateDialog(first)), UpdateDialog(second))
         == DialogReducer(state, UpdateDialog(Combine(first, second)))
  {
  }
}
