/**
 The session of the storefront: which page is shown, who is signed in, the
 cart, the selected category, the checkout draft and the sign-in inputs.
 Each handler of the app is a pure function from session to session; `Step`
 fires a user action only when the control that triggers it is on screen.
 */
module Storefront {
  import opened Catalog
  import opened CartStore
  import opened Account
  import opened CheckoutForms

  datatype Page = LoginPage | ProductsPage | CartPage | CheckoutPage | SuccessPage

  datatype Option<+T> = None | Some(value: T)

  datatype Session = Session(
    page: Page,
    user: Option<UserData>,
    cart: Cart,
    category: string,
    form: CheckoutForm,
    loginEmail: string,
    loginPassword: string)

  /** The state the app starts in. */
  const Initial := Session(LoginPage, None, [], All, EmptyForm, "", "")

  // ---------------------------------------------------------------------
  // Handlers

  /** Sign in with the typed credentials, if both are non-empty. */
  function HandleLogin(s: Session): (r: Session)
    ensures r != s <==> s.loginEmail != "" && s.loginPassword != ""
    ensures r != s ==> r.page == ProductsPage && r.loginEmail == "" && r.loginPassword == ""
    ensures r != s ==> r.user == Some(UserData(s.loginEmail, DisplayName(s.loginEmail)))
    ensures r.cart == s.cart && r.category == s.category && r.form == s.form
  {
    if s.loginEmail != "" && s.loginPassword != "" then
      s.(user := Some(SignedIn(s.loginEmail)), page := ProductsPage, loginEmail := "", loginPassword := "")
    else
      s
  }

  /** Sign out: forget the user, empty the cart, back to the sign-in page. */
  function HandleLogout(s: Session): (r: Session)
    ensures r.user == None && r.cart == [] && r.page == LoginPage
    ensures r.category == s.category && r.form == s.form
    ensures r.loginEmail == s.loginEmail && r.loginPassword == s.loginPassword
  {
    s.(user := None, cart := [], page := LoginPage)
  }

  /** Submit payment: go to the success page when every form field is filled. */
  function HandleCheckout(s: Session): (r: Session)
    ensures Ready(s.form) ==> r.page == SuccessPage
    ensures !Ready(s.form) ==> r == s
    ensures r.user == s.user && r.cart == s.cart && r.form == s.form
    ensures r.category == s.category
    ensures r.loginEmail == s.loginEmail && r.loginPassword == s.loginPassword
  {
    if Ready(s.form) then s.(page := SuccessPage) else s
  }

  /** The success page's button: empty the cart and return to the products. */
  function ContinueShopping(s: Session): (r: Session)
    ensures r.page == ProductsPage && r.cart == []
    ensures r.user == s.user && r.form == s.form && r.category == s.category
    ensures r.loginEmail == s.loginEmail && r.loginPassword == s.loginPassword
  {
    s.(cart := [], page := ProductsPage)
  }

  // ---------------------------------------------------------------------
  // User actions

  datatype Action =
    | TypeEmail(email: string)
    | TypePassword(password: string)
    | SignIn
    | SignOut
    | ShowProducts
    | ShowCart
    | SelectCategory(selected: string)
    | Add(product: Product)
    | ChangeQuantity(id: int, change: int)
    | Remove(id: int)
    | BackToProducts
    | ProceedToCheckout
    | EditForm(field: Field, value: string)
    | SubmitPayment
    | Continue

  /** The header with its navigation is drawn on every page but sign-in, and only for a user. */
  predicate HeaderShown(s: Session)
  {
    s.page != LoginPage && s.user.Some?
  }

  /** Whether the control that fires `a` is on screen in `s`. */
  predicate Available(catalog: seq<Product>, s: Session, a: Action)
  {
    match a
    case TypeEmail(_) => s.page == LoginPage
    case TypePassword(_) => s.page == LoginPage
    case SignIn => s.page == LoginPage
    case SignOut => HeaderShown(s)
    case ShowProducts => HeaderShown(s)
    case ShowCart => HeaderShown(s)
    case SelectCategory(c) => s.page == ProductsPage && c in Categories(catalog)
    case Add(p) => s.page == ProductsPage && p in FilteredProducts(catalog, s.category)
    case ChangeQuantity(id, change) =>
      s.page == CartPage && HasId(s.cart, id) && (change == -1 || change == 1)
    case Remove(id) => s.page == CartPage && HasId(s.cart, id)
    case BackToProducts => s.page == CartPage && s.cart == []
    case ProceedToCheckout => s.page == CartPage && s.cart != []
    case EditForm(_, _) => s.page == CheckoutPage
    case SubmitPayment => s.page == CheckoutPage
    case Continue => s.page == SuccessPage
  }

  /** What firing `a` does, whether or not its control is on screen. */
  function Apply(s: Session, a: Action): Session
  {
    match a
    case TypeEmail(v) => s.(loginEmail := v)
    case TypePassword(v) => s.(loginPassword := v)
    case SignIn => HandleLogin(s)
    case SignOut => HandleLogout(s)
    case ShowProducts => s.(page := ProductsPage)
    case ShowCart => s.(page := CartPage)
    case SelectCategory(c) => s.(category := c)
    case Add(p) => s.(cart := AddToCart(s.cart, p))
    case ChangeQuantity(id, change) => s.(cart := UpdateQuantity(s.cart, id, change))
    case Remove(id) => s.(cart := RemoveFromCart(s.cart, id))
    case BackToProducts => s.(page := ProductsPage)
    case ProceedToCheckout => s.(page := CheckoutPage)
    case EditForm(f, v) => s.(form := CheckoutForms.Set(s.form, f, v))
    case SubmitPayment => HandleCheckout(s)
    case Continue => ContinueShopping(s)
  }

  /** One user action: fired when its control is on screen, ignored otherwise. */
  function Step(catalog: seq<Product>, s: Session, a: Action): (r: Session)
    ensures !Available(catalog, s, a) ==> r == s
    ensures r.form != s.form ==> a.EditForm? && s.page == CheckoutPage
    ensures r.cart != s.cart ==>
      a.SignOut? || a.Continue? || (s.page in {ProductsPage, CartPage} && (a.Add? || a.ChangeQuantity? || a.Remove?))
    ensures r.category != s.category ==> a.SelectCategory? && s.page == ProductsPage
    // What each rendered control does when pressed.
    ensures Available(catalog, s, a) ==>
      && (a.TypeEmail? ==> r == s.(loginEmail := a.email))
      && (a.TypePassword? ==> r == s.(loginPassword := a.password))
      && (a.SignIn? ==> r == HandleLogin(s))
      && (a.SignOut? ==> r == HandleLogout(s))
      && (a.ShowProducts? || a.BackToProducts? ==> r == s.(page := ProductsPage))
      && (a.ShowCart? ==> r == s.(page := CartPage))
      && (a.SelectCategory? ==> r == s.(category := a.selected))
      && (a.Add? ==> r == s.(cart := AddToCart(s.cart, a.product)))
      && (a.ChangeQuantity? ==> r == s.(cart := UpdateQuantity(s.cart, a.id, a.change)))
      && (a.Remove? ==> r == s.(cart := RemoveFromCart(s.cart, a.id)))
      && (a.ProceedToCheckout? ==> r == s.(page := CheckoutPage))
      && (a.EditForm? ==> r == s.(form := CheckoutForms.Set(s.form, a.field, a.value)))
      && (a.SubmitPayment? ==> r == HandleCheckout(s))
      && (a.Continue? ==> r == ContinueShopping(s))
  {
    if Available(catalog, s, a) then Apply(s, a) else s
  }

  /** A sequence of actions, first to last. */
  function Run(catalog: seq<Product>, s: Session, actions: seq<Action>): Session
    decreases |actions|
  {
    if actions == [] then s else Run(catalog, Step(catalog, s, actions[0]), actions[1..])
  }

  // ---------------------------------------------------------------------
  // The session invariant

  /**
   What every reachable session satisfies: the cart invariant, a user exactly
   off the sign-in page, an empty cart on it, a non-empty cart while paying
   or celebrating, a display name derived from the e-mail, and only catalog
   products in the cart.
   */
  predicate Inv(catalog: seq<Product>, s: Session)
  {
    && Valid(s.cart)
    && (s.user.Some? <==> s.page != LoginPage)
    && (s.page == LoginPage ==> s.cart == [])
    && (s.page in {CheckoutPage, SuccessPage} ==> s.cart != [])
    && (s.user.Some? ==> s.user.value.email != "" && s.user.value.name == DisplayName(s.user.value.email))
    && (forall i :: 0 <= i < |s.cart| ==> s.cart[i].product in catalog)
  }

  lemma InitialInv(catalog: seq<Product>)
    ensures Inv(catalog, Initial)
  {
  }

  /** Every action keeps the invariant. */
  lemma StepInv(catalog: seq<Product>, s: Session, a: Action)
    requires Inv(catalog, s)
    ensures Inv(catalog, Step(catalog, s, a))
  {
    if Available(catalog, s, a) {
      match a
      case Add(p) => AddKeepsInv(catalog, s, p);
      case Remove(id) => RemoveKeepsInv(catalog, s, id);
      case _ =>
    }
  }

  lemma AddKeepsInv(catalog: seq<Product>, s: Session, p: Product)
    requires Inv(catalog, s) && Available(catalog, s, Add(p))
    ensures Inv(catalog, Step(catalog, s, Add(p)))
  {
  }

  lemma RemoveKeepsInv(catalog: seq<Product>, s: Session, id: int)
    requires Inv(catalog, s) && Available(catalog, s, Remove(id))
    ensures Inv(catalog, Step(catalog, s, Remove(id)))
  {
    var r := Step(catalog, s, Remove(id));
    RemoveFromCartValid(s.cart, id);
    forall i | 0 <= i < |r.cart|
      ensures r.cart[i].product in catalog
    {
      assert r.cart[i] in s.cart;
    }
  }

  /** Every session reached from a good one by a run of actions is good. */
  lemma {:induction false} RunInv(catalog: seq<Product>, s: Session, actions: seq<Action>)
    requires Inv(catalog, s)
    ensures Inv(catalog, Run(catalog, s, actions))
    decreases |actions|
  {
    if actions != [] {
      StepInv(catalog, s, actions[0]);
      RunInv(catalog, Step(catalog, s, actions[0]), actions[1..]);
    }
  }

  /** Every session the app can reach from its start satisfies the invariant. */
  lemma ReachableInv(catalog: seq<Product>, actions: seq<Action>)
    ensures Inv(catalog, Run(catalog, Initial, actions))
  {
    RunInv(catalog, Initial, actions);
  }

  // ---------------------------------------------------------------------
  // Guarded transitions

  /** From the sign-in page only a successful sign-in leaves it, and nothing else touches the cart. */
  lemma AuthGate(catalog: seq<Product>, s: Session, a: Action)
    requires Inv(catalog, s) && s.page == LoginPage
    ensures Step(catalog, s, a).page != LoginPage <==>
      a == SignIn && s.loginEmail != "" && s.loginPassword != ""
    ensures Step(catalog, s, a).user.Some? <==> Step(catalog, s, a).page != LoginPage
    ensures Step(catalog, s, a).cart == []
  {
  }

  /** The page changes only along the arrows the buttons draw. */
  lemma PageTransitions(catalog: seq<Product>, s: Session, a: Action)
    requires Inv(catalog, s)
    ensures var r := Step(catalog, s, a);
      r.page != s.page ==>
        || (s.page == LoginPage && r.page == ProductsPage && a == SignIn)
        || (s.page != LoginPage && r.page == LoginPage && a == SignOut)
        || (s.page != LoginPage && r.page == ProductsPage && a == ShowProducts)
        || (s.page == CartPage && r.page == ProductsPage && a == BackToProducts && s.cart == [])
        || (s.page == SuccessPage && r.page == ProductsPage && a == Continue && r.cart == [])
        || (s.page != LoginPage && r.page == CartPage && a == ShowCart)
        || (s.page == CartPage && r.page == CheckoutPage && a == ProceedToCheckout && s.cart != [])
        || (s.page == CheckoutPage && r.page == SuccessPage && a == SubmitPayment && Ready(s.form))
  {
  }

  /** Paying succeeds exactly when the form is complete. */
  lemma SubmitPaymentGuard(catalog: seq<Product>, s: Session)
    requires s.page == CheckoutPage
    ensures Step(catalog, s, SubmitPayment).page == SuccessPage <==> Ready(s.form)
    ensures !Ready(s.form) ==> Step(catalog, s, SubmitPayment) == s
  {
  }

  /**
   Apart from signing out, only the success page's own button empties the
   cart after payment: leaving through the header's cart button shows the
   paid items still in the cart, ready to be checked out again.
   */
  lemma PaidCartKeptByHeader(catalog: seq<Product>, s: Session)
    requires Inv(catalog, s) && s.page == SuccessPage
    ensures var r := Step(catalog, s, ShowCart);
      r.page == CartPage && r.cart == s.cart && r.cart != []
    ensures Step(catalog, Step(catalog, s, ShowCart), ProceedToCheckout).page == CheckoutPage
  {
  }

  // ---------------------------------------------------------------------
  // Scenarios

  /** Signing in as a@b.com with any password shows the products to user "a". */
  lemma SignInScenario(catalog: seq<Product>)
    ensures var r := Run(catalog, Initial, [TypeEmail("a@b.com"), TypePassword("x"), SignIn]);
      r.page == ProductsPage && r.user == Some(UserData("a@b.com", "a"))
  {
    var acts := [TypeEmail("a@b.com"), TypePassword("x"), SignIn];
    var s1 := Step(catalog, Initial, acts[0]);
    var s2 := Step(catalog, s1, TypePassword("x"));
    assert s2 == Initial.(loginEmail := "a@b.com", loginPassword := "x");
    assert acts[1..] == [TypePassword("x"), SignIn];
    assert acts[1..][1..] == [SignIn];
    assert Run(catalog, Initial, acts) == Run(catalog, s1, acts[1..]);
    assert Run(catalog, s1, acts[1..]) == Run(catalog, s2, [SignIn]);
    DisplayNameExample();
  }

  /** Signing out of a full cart and back in finds the cart empty. */
  lemma SignOutEmptiesCart(catalog: seq<Product>, s: Session, email: string, password: string)
    requires Inv(catalog, s) && s.page == CartPage && s.cart != []
    requires email != "" && password != ""
    ensures var r := Run(catalog, s, [SignOut, TypeEmail(email), TypePassword(password), SignIn]);
      r.page == ProductsPage && r.cart == []
  {
    var acts := [SignOut, TypeEmail(email), TypePassword(password), SignIn];
    assert acts[1..] == [TypeEmail(email), TypePassword(password), SignIn];
    assert acts[1..][1..] == [TypePassword(password), SignIn];
    assert acts[1..][1..][1..] == [SignIn];
    var s1 := Step(catalog, s, SignOut);
    assert s1.page == LoginPage && s1.cart == [];
    var s2 := Step(catalog, s1, TypeEmail(email));
    var s3 := Step(catalog, s2, TypePassword(password));
    assert s3 == s1.(loginEmail := email, loginPassword := password);
    assert Run(catalog, s, acts) == Run(catalog, s1, acts[1..]);
    assert Run(catalog, s1, acts[1..]) == Run(catalog, s2, acts[1..][1..]);
    assert Run(catalog, s2, acts[1..][1..]) == Run(catalog, s3, [SignIn]);
  }

  /** A form whose only empty field is the security code cannot be paid. */
  lemma EmptyCvvScenario(catalog: seq<Product>, s: Session)
    requires s.page == CheckoutPage && s.form.cvv == ""
    ensures Step(catalog, s, SubmitPayment) == s
  {
  }

  /** After a successful payment, continuing shows the products with an empty cart. */
  lemma ContinueScenario(catalog: seq<Product>, s: Session)
    requires Inv(catalog, s) && s.page == SuccessPage
    ensures var r := Step(catalog, s, Continue);
      r.page == ProductsPage && CartCount(r.cart) == 0 && r.user == s.user
  {
  }
}
