/**
 * The checkout button under the order summary: which of three controls it
 * shows, and what each of them leads to.
 */
module CheckoutButton {
  import opened Wrappers
  import opened Types
  import opened UserProfileForm

  /** The three outcomes of the component. */
  datatype View =
    | LoginButton(returnTo: string)                  // "Login to Checkout", redirects back to `returnTo`
    | LoadingButton                                  // a spinner; nothing can be triggered
    | CheckoutDialog(disabled: bool, prefill: UserFormData)  // "Checkout" opening the pre-filled form

  /** The component's if-chain over the authentication state and loading flags. */
  function Render(isAuthenticated: bool, isAuthLoading: bool, currentUser: Option<User>,
                  isLoading: bool, disabled: bool, pathname: string): View
  {
    if !isAuthenticated then LoginButton(pathname)
    else if isAuthLoading || currentUser.None? || isLoading then LoadingButton
    else CheckoutDialog(disabled, FromUser(currentUser.value))
  }

  /**
   * What the checkout form passes to `onCheckout` when submitted with values `v`.
   * A disabled trigger never opens the dialog, so its form is never mounted.
   */
  function DialogSubmit(view: View, v: UserFormData): Option<UserFormData>
  {
    if view.CheckoutDialog? && !view.disabled && Submit(v).Ok? then Some(v) else None
  }

  /** The three views partition the inputs as the if-chain says. */
  lemma RenderCases(isAuthenticated: bool, isAuthLoading: bool, currentUser: Option<User>,
                    isLoading: bool, disabled: bool, pathname: string)
    ensures var v := Render(isAuthenticated, isAuthLoading, currentUser, isLoading, disabled, pathname);
      && (v.LoginButton? <==> !isAuthenticated)
      && (v.LoginButton? ==> v.returnTo == pathname)
      && (v.LoadingButton? <==> isAuthenticated && (isAuthLoading || currentUser.None? || isLoading))
      && (v.CheckoutDialog? <==> isAuthenticated && !isAuthLoading && currentUser.Some? && !isLoading)
      && (v.CheckoutDialog? ==> v.disabled == disabled && v.prefill == FromUser(currentUser.value))
  {
  }

  /** While a checkout request is pending there is no checkout trigger at all. */
  lemma NoTriggerWhileCheckoutPending(isAuthenticated: bool, isAuthLoading: bool, currentUser: Option<User>,
                                      disabled: bool, pathname: string, v: UserFormData)
    ensures !Render(isAuthenticated, isAuthLoading, currentUser, true, disabled, pathname).CheckoutDialog?
    ensures DialogSubmit(Render(isAuthenticated, isAuthLoading, currentUser, true, disabled, pathname), v) == None
  {
  }

  /** On the detail page (`disabled` = empty cart), checkout is offered enabled iff the cart has lines. */
  lemma DetailPageCheckoutEnabled(user: User, cartLength: nat, pathname: string)
    ensures var v := Render(true, false, Some(user), false, cartLength == 0, pathname);
      v.CheckoutDialog? && (v.disabled <==> cartLength == 0)
  {
  }

  /** Only values the profile schema accepts ever reach `onCheckout`. */
  lemma DialogSubmitValid(view: View, v: UserFormData)
    ensures DialogSubmit(view, v).Some? <==> view.CheckoutDialog? && !view.disabled && UserProfileForm.Valid(v)
    ensures DialogSubmit(view, v).Some? ==> DialogSubmit(view, v).value == v
  {
    SubmitAcceptsValid(v);
  }

  /** On the detail page an empty cart disables the trigger, so nothing reaches `onCheckout`. */
  lemma EmptyCartBlocksCheckout(user: User, cartLength: nat, pathname: string, v: UserFormData)
    ensures DialogSubmit(Render(true, false, Some(user), false, cartLength == 0, pathname), v).Some?
            <==> cartLength > 0 && UserProfileForm.Valid(v)
  {
    SubmitAcceptsValid(v);
  }
}
