/** The authentication flags the sign-in and sign-up pages read from the store,
    and the side effects their status effect hooks produce, as tags. */
module AuthStatus {

  /** One request's progress: `*_processing`, `*_failed` and `*_success`. */
  datatype Flags = Flags(processing: bool, failed: bool, success: bool)

  /** The page reports a failure: done, failed and not successful. */
  predicate ShowsFailure(f: Flags) {
    !f.processing && f.failed && !f.success
  }

  /** The page reports a success: done, not failed and successful. */
  predicate ShowsSuccess(f: Flags) {
    !f.processing && !f.failed && f.success
  }

  /** A side effect of the status hook: an immediate route change, a route
      change scheduled after a delay in milliseconds, or a toast. */
  datatype Effect =
    | Navigate(path: string)
    | NavigateAfter(delayMs: nat, path: string)
    | ErrorToast(text: string)
    | SuccessToast(text: string)

  predicate IsToast(e: Effect) {
    e.ErrorToast? || e.SuccessToast?
  }

  /** The toasts among the effects, in order. */
  function Toasts(effects: seq<Effect>): (r: seq<Effect>)
    ensures |r| <= |effects|
    ensures forall k :: 0 <= k < |r| ==> IsToast(r[k]) && r[k] in effects
    ensures forall e :: e in effects && IsToast(e) ==> e in r
  {
    if effects == [] then []
    else if IsToast(effects[0]) then [effects[0]] + Toasts(effects[1..])
    else Toasts(effects[1..])
  }

  /** One effect is kept exactly when it is a toast. With `ToastsAppend` this
      fixes the order and the multiplicity of what `Toasts` returns. */
  lemma ToastsSingleton(e: Effect)
    ensures Toasts([e]) == if IsToast(e) then [e] else []
  {
    assert [e][1..] == [];
  }

  lemma {:induction false} ToastsAppend(a: seq<Effect>, b: seq<Effect>)
    ensures Toasts(a + b) == Toasts(a) + Toasts(b)
    decreases |a|
  {
    if a == [] {
      assert a + b == b;
    } else {
      assert (a + b)[1..] == a[1..] + b;
      ToastsAppend(a[1..], b);
    }
  }

  /** The two reports exclude each other for every combination of flags. */
  lemma FailureExcludesSuccess(f: Flags)
    ensures !(ShowsFailure(f) && ShowsSuccess(f))
  {
  }
}
