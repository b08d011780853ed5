/**
 * The change-password dialog: the submit handler's two checks in their order,
 * then a success state; the delayed close empties the form. The messages are
 * the translation keys the handler passes to `t`.
 */
module ChangePasswordModal {
  import opened Wrappers

  const FillAll: string := "Please fill all fields"
  const NoMatch: string := "Passwords do not match"

  /** The handler's checks: every field filled, then the new password confirmed. None when both pass. */
  function Check(current: string, newPassword: string, confirm: string): (r: Option<string>)
    ensures r == Some(FillAll) <==> current == "" || newPassword == "" || confirm == ""
    ensures r == Some(NoMatch) <==> current != "" && newPassword != "" && confirm != "" && newPassword != confirm
    ensures r == None <==> current != "" && newPassword != "" && newPassword == confirm
  {
    if current == "" || newPassword == "" || confirm == "" then Some(FillAll)
    else if newPassword != confirm then Some(NoMatch)
    else None
  }

  /** The dialog's state; `pendingTimers` counts the delayed closes scheduled and not yet run. */
  class ChangePasswordView {
    var currentPassword: string
    var newPassword: string
    var confirmPassword: string
    var error: string
    var success: bool
    var pendingTimers: nat

    constructor ()
      ensures currentPassword == "" && newPassword == "" && confirmPassword == ""
      ensures error == "" && !success && pendingTimers == 0
    {
      currentPassword, newPassword, confirmPassword := "", "", "";
      error := "";
      success := false;
      pendingTimers := 0;
    }

    method EditFields(current: string, newValue: string, confirm: string)
      modifies this
      ensures currentPassword == current && newPassword == newValue && confirmPassword == confirm
      ensures error == old(error) && success == old(success) && pendingTimers == old(pendingTimers)
    {
      currentPassword, newPassword, confirmPassword := current, newValue, confirm;
    }

    /** `handleSubmit`: the first failing check's message, or success and one more delayed close. */
    method HandleSubmit()
      modifies this
      ensures var c := Check(currentPassword, newPassword, confirmPassword);
              (c.Some? ==> error == c.value && success == old(success) && pendingTimers == old(pendingTimers))
              && (c.None? ==> error == "" && success && pendingTimers == old(pendingTimers) + 1)
      ensures currentPassword == old(currentPassword) && newPassword == old(newPassword) && confirmPassword == old(confirmPassword)
    {
      error := "";
      var c := Check(currentPassword, newPassword, confirmPassword);
      if c.Some? {
        error := c.value;
        return;
      }
      success := true;
      pendingTimers := pendingTimers + 1;
    }

    /** A delayed close runs: it asks the parent to close, clears success and empties the three fields. */
    method Elapse() returns (closeRequested: bool)
      requires pendingTimers > 0
      modifies this
      ensures closeRequested
      ensures !success && currentPassword == "" && newPassword == "" && confirmPassword == ""
      ensures error == old(error) && pendingTimers == old(pendingTimers) - 1
    {
      closeRequested := true;
      success := false;
      currentPassword, newPassword, confirmPassword := "", "", "";
      pendingTimers := pendingTimers - 1;
    }
  }
}
