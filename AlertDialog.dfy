/** The confirmation-dialog hook (frontend/src/hooks/use-alert-dialog.ts):
    one `open` flag, the four texts with their defaults, and the callbacks
    the dialog's handlers invoke, recorded in call order. */
module AlertDialog {
  import opened Common

  const DefaultTitle := "Are you absolutely sure?"
  const DefaultDescription := "This action cannot be undone."
  const DefaultCancelText := "Cancel"
  const DefaultConfirmText := "Continue"

  /** `UseAlertDialogOptions`: the texts, and whether each callback was given. */
  datatype Options = Options(title: Option<string>, description: Option<string>,
                             cancelText: Option<string>, confirmText: Option<string>,
                             hasOnConfirm: bool, hasOnCancel: bool)

  datatype Callback = ConfirmCalled | CancelCalled

  /** A destructuring default: the given text, or the fixed one when absent. */
  function TextOr(given: Option<string>, default: string): (t: string)
    ensures given.Some? ==> t == given.value
    ensures given.None? ==> t == default
  {
    if given.Some? then given.value else default
  }

  class Dialog {
    const title: string
    const description: string
    const cancelText: string
    const confirmText: string
    const hasOnConfirm: bool
    const hasOnCancel: bool
    var open: bool
    var calls: seq<Callback>

    /** The dialog starts closed, with each text given or defaulted. */
    constructor (options: Options)
      ensures !open && calls == []
      ensures title == TextOr(options.title, DefaultTitle)
      ensures description == TextOr(options.description, DefaultDescription)
      ensures cancelText == TextOr(options.cancelText, DefaultCancelText)
      ensures confirmText == TextOr(options.confirmText, DefaultConfirmText)
      ensures hasOnConfirm == options.hasOnConfirm && hasOnCancel == options.hasOnCancel
    {
      title := TextOr(options.title, DefaultTitle);
      description := TextOr(options.description, DefaultDescription);
      cancelText := TextOr(options.cancelText, DefaultCancelText);
      confirmText := TextOr(options.confirmText, DefaultConfirmText);
      hasOnConfirm := options.hasOnConfirm;
      hasOnCancel := options.hasOnCancel;
      open := false;
      calls := [];
    }

    /** `handleOpenChange(v)`: the flag follows `v`; closing calls `onCancel`
        when one was given. */
    method HandleOpenChange(newOpen: bool)
      modifies this
      ensures open == newOpen
      ensures !newOpen && hasOnCancel ==> calls == old(calls) + [CancelCalled]
      ensures newOpen || !hasOnCancel ==> calls == old(calls)
    {
      open := newOpen;
      if !newOpen && hasOnCancel {
        calls := calls + [CancelCalled];
      }
    }

    /** `handleConfirm`: awaits `onConfirm` when given, then closes. When
        `onConfirm` rejects, the rejection propagates before the dialog is
        closed, so it stays as it was; `completed` is false then. */
    method HandleConfirm(onConfirmRejects: bool) returns (completed: bool)
      modifies this
      ensures completed <==> !(hasOnConfirm && onConfirmRejects)
      ensures completed ==> !open
      ensures !completed ==> open == old(open)
      ensures calls == old(calls) + (if hasOnConfirm then [ConfirmCalled] else [])
      ensures CancelCalled in calls <==> CancelCalled in old(calls)
    {
      if hasOnConfirm {
        calls := calls + [ConfirmCalled];
        if onConfirmRejects {
          return false;
        }
      }
      open := false;
      return true;
    }

    /** `openDialog`: open, no callback. */
    method OpenDialog()
      modifies this
      ensures open && calls == old(calls)
    {
      open := true;
    }

    /** `closeDialog`: closed, no callback (unlike `handleOpenChange(false)`). */
    method CloseDialog()
      modifies this
      ensures !open && calls == old(calls)
    {
      open := false;
    }
  }

  /** Dismissing through the dialog and closing it programmatically end in
      the same state, but only the first tells the caller about it. */
  method DismissVersusClose(options: Options) returns (dismissed: seq<Callback>, closed: seq<Callback>)
    ensures options.hasOnCancel ==> dismissed == [CancelCalled]
    ensures !options.hasOnCancel ==> dismissed == []
    ensures closed == []
  {
    var a := new Dialog(options);
    a.OpenDialog();
    a.HandleOpenChange(false);
    var b := new Dialog(options);
    b.OpenDialog();
    b.CloseDialog();
    dismissed, closed := a.calls, b.calls;
  }
}
