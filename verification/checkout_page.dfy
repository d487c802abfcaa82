/**
 * The checkout page (app/checkout/page.tsx): the shipping and payment form, the
 * processing flag, and what placing the order does to the store. Its order summary
 * uses the figures of module OrderSummary.
 */
module CheckoutPage {
  import opened CartWishlist

  /** The twelve inputs of the form, each marked `required`. */
  const FieldNames: seq<string> := ["email", "firstName", "lastName", "address", "city", "state",
    "zipCode", "country", "cardNumber", "cardName", "expiryDate", "cvv"]

  /** The page shows the form and summary when the cart has lines, a notice otherwise. */
  predicate ShowsCheckoutForm(cart: seq<LineItem>) {
    |cart| != 0
  }

  /** The browser submits a form whose `required` inputs are all non-empty. */
  predicate Filled(form: map<string, string>) {
    forall f | f in FieldNames :: f in form && form[f] != ""
  }

  /** The initial form: every field empty. */
  function EmptyForm(): (m: map<string, string>)
    ensures forall f | f in FieldNames :: f in m && m[f] == ""
    ensures m.Keys == set f | f in FieldNames
    ensures !Filled(m)
  {
    assert FieldNames[0] in FieldNames;
    map f | f in FieldNames :: ""
  }

  class Checkout {
    const store: Store
    var form: map<string, string>
    var isProcessing: bool

    ghost predicate Valid()
      reads this, store
    {
      store.Valid() && form.Keys == set f | f in FieldNames
    }

    constructor (store: Store)
      requires store.Valid()
      ensures Valid() && this.store == store
      ensures form == EmptyForm() && !isProcessing
    {
      this.store := store;
      form := EmptyForm();
      isProcessing := false;
    }

    /** handleChange: overwrite the named field with the typed value. */
    method HandleChange(name: string, value: string)
      requires Valid() && name in FieldNames
      modifies this
      ensures Valid()
      ensures form == old(form)[name := value] && isProcessing == old(isProcessing)
    {
      form := form[name := value];
    }

    /**
     * Submitting the form. The button is disabled while processing, and the browser
     * holds back a form with an empty required field; otherwise handleSubmit raises the
     * processing flag and schedules the payment. The cart is not touched yet.
     */
    method Submit()
      requires Valid()
      modifies this
      ensures Valid()
      ensures isProcessing == (old(isProcessing) || Filled(old(form)))
      ensures form == old(form)
    {
      if !isProcessing && Filled(form) {
        isProcessing := true;
      }
    }

    /**
     * The scheduled payment completion: lower the flag and clear the cart. The
     * wishlist is kept.
     */
    method CompletePayment()
      requires Valid() && isProcessing
      modifies this, store
      ensures Valid()
      ensures !isProcessing && form == old(form)
      ensures store.cart == [] && store.wishlist == old(store.wishlist)
      ensures !ShowsCheckoutForm(store.cart)
    {
      isProcessing := false;
      store.ClearCart();
    }
  }
}
