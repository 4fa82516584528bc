/**
 * The redirect logic of src/components/AuthGuard.tsx: on each render the
 * guard decides what to show, then its effect may push one navigation to
 * the sign-in page and latch `isRedirecting`.
 */
module AuthGuard {
  import opened Values

  const SignInPath: string := "/auth/prihlasenie"

  datatype Status = Loading | Authenticated | Unauthenticated

  datatype View = CheckingText | Children

  /** The component's state: whether a redirect has been started. */
  datatype Guard = Guard(isRedirecting: bool)

  /** The render decision. */
  function Render(g: Guard, status: Status): (v: View)
    ensures v == CheckingText <==> status == Loading || g.isRedirecting
  {
    if status == Loading || g.isRedirecting then CheckingText else Children
  }

  /** The effect: redirect only when unauthenticated and not yet redirecting. */
  function Effect(g: Guard, status: Status): (r: (Guard, Option<string>))
    ensures r.1.Some? <==> status == Unauthenticated && !g.isRedirecting
    ensures r.1.Some? ==> r.1.value == SignInPath
    ensures r.0.isRedirecting <==> g.isRedirecting || status == Unauthenticated
  {
    if status == Unauthenticated && !g.isRedirecting then (Guard(true), Some(SignInPath)) else (g, None)
  }

  /** Renders followed by effects, one per status the session reports:
      the final state, the views shown and the navigations pushed. */
  function Run(g: Guard, statuses: seq<Status>): (r: (Guard, seq<View>, seq<string>))
    ensures |r.1| == |statuses|
    ensures g.isRedirecting ==> r.0.isRedirecting && |r.2| == 0
    ensures |r.2| <= 1
    ensures forall k :: 0 <= k < |r.2| ==> r.2[k] == SignInPath
    ensures |r.2| == 1 ==> r.0.isRedirecting
    decreases |statuses|
  {
    if |statuses| == 0 then (g, [], [])
    else
      var view := Render(g, statuses[0]);
      var (g', push) := Effect(g, statuses[0]);
      var (final, views, pushes) := Run(g', statuses[1..]);
      (final, [view] + views, (if push.Some? then [push.value] else []) + pushes)
  }

  /** A redirect happens exactly when some reported status is
      "unauthenticated"; the first render of that status still shows the
      children, because the effect runs after it. */
  lemma {:induction false} RedirectsIffUnauthenticated(statuses: seq<Status>)
    ensures |Run(Guard(false), statuses).2| == 1 <==> Unauthenticated in statuses
    decreases |statuses|
  {
    if |statuses| > 0 {
      if statuses[0] == Unauthenticated {
        assert Unauthenticated in statuses;
      } else {
        RedirectsIffUnauthenticated(statuses[1..]);
        assert statuses == [statuses[0]] + statuses[1..];
      }
    }
  }

  lemma FirstUnauthenticatedRenderShowsChildren()
    ensures Render(Guard(false), Unauthenticated) == Children
  {
  }
}
