/** The browser reload guard of gulpfile.babel.js (lines 245-270): a build
    error in development leaves a notification in the browser and asks that
    the next reload be skipped, so that the notification stays visible. */
module LiveReload {

  /** `env === 'development'`. */
  predicate IsDevelopment(env: string)
  {
    env == "development"
  }

  /** What the guard is asked to do. */
  datatype Event =
    | ReloadRequest          // `reload()`
    | BuildError(env: string) // `handleBuildError(...)` in the given build environment

  /** What each request does. */
  datatype Outcome =
    | Reloaded    // `browserSync.reload()` is called
    | Suppressed  // the pending error swallows this reload
    | Notified    // the error is logged and shown, and the stream ends normally
    | Rethrown    // the error is thrown on

  /** One request, given whether a reload is to be skipped: the new flag and
      what happened. */
  function Step(prevent: bool, e: Event): (bool, Outcome)
  {
    match e
    case ReloadRequest => if prevent then (false, Suppressed) else (false, Reloaded)
    case BuildError(env) => if IsDevelopment(env) then (true, Notified) else (prevent, Rethrown)
  }

  /** The flag after a sequence of requests. */
  function FlagAfter(prevent: bool, es: seq<Event>): bool
    decreases |es|
  {
    if es == [] then prevent else FlagAfter(Step(prevent, es[0]).0, es[1..])
  }

  /** What each of a sequence of requests does. */
  function Outcomes(prevent: bool, es: seq<Event>): (r: seq<Outcome>)
    ensures |r| == |es|
    decreases |es|
  {
    if es == [] then [] else [Step(prevent, es[0]).1] + Outcomes(Step(prevent, es[0]).0, es[1..])
  }

  /** A development error not yet followed by a reload request. */
  predicate PendingError(es: seq<Event>)
  {
    exists i :: 0 <= i < |es| && es[i].BuildError? && IsDevelopment(es[i].env)
                && forall j :: i < j < |es| ==> !es[j].ReloadRequest?
  }

  /** Starting without a skip pending, a reload is skipped exactly when a
      development error has happened since the last reload request. */
  lemma {:induction false} FlagIsPendingError(es: seq<Event>)
    ensures FlagAfter(false, es) <==> PendingError(es)
  {
    if es != [] {
      var init := es[..|es| - 1];
      var e := es[|es| - 1];
      FlagIsPendingError(init);
      FlagAfterSnoc(false, init, e);
      assert init + [e] == es;
      if PendingError(init) && !e.ReloadRequest? {
        var i :| 0 <= i < |init| && init[i].BuildError? && IsDevelopment(init[i].env)
                 && forall j :: i < j < |init| ==> !init[j].ReloadRequest?;
        assert es[i] == init[i];
        assert forall j :: i < j < |es| ==> !es[j].ReloadRequest? by {
          forall j | i < j < |es| ensures !es[j].ReloadRequest? {
            if j < |init| { assert es[j] == init[j]; }
          }
        }
      }
      if PendingError(es) {
        var i :| 0 <= i < |es| && es[i].BuildError? && IsDevelopment(es[i].env)
                 && forall j :: i < j < |es| ==> !es[j].ReloadRequest?;
        if i < |init| {
          assert init[i] == es[i];
          assert forall j :: i < j < |init| ==> init[j] == es[j];
        }
      }
    }
  }

  lemma {:induction false} FlagAfterSnoc(prevent: bool, es: seq<Event>, e: Event)
    ensures FlagAfter(prevent, es + [e]) == Step(FlagAfter(prevent, es), e).0
    decreases |es|
  {
    if es != [] {
      assert (es + [e])[1..] == es[1..] + [e];
      FlagAfterSnoc(Step(prevent, es[0]).0, es[1..], e);
    }
  }

  /** A development error swallows exactly the next reload; the one after
      goes through. Several errors in a row still swallow only one. */
  lemma SuppressesOnlyNextReload(prevent: bool, n: nat)
    ensures Outcomes(prevent, Errors(n + 1) + [ReloadRequest, ReloadRequest])
            == Notifications(n + 1) + [Suppressed, Reloaded]
  {
    ErrorsOutcomes(prevent, n + 1, [ReloadRequest, ReloadRequest]);
  }

  function Errors(n: nat): (r: seq<Event>)
    ensures |r| == n && forall i :: 0 <= i < n ==> r[i] == BuildError("development")
  {
    if n == 0 then [] else [BuildError("development")] + Errors(n - 1)
  }

  function Notifications(n: nat): (r: seq<Outcome>)
    ensures |r| == n && forall i :: 0 <= i < n ==> r[i] == Notified
  {
    if n == 0 then [] else [Notified] + Notifications(n - 1)
  }

  lemma {:induction false} ErrorsOutcomes(prevent: bool, n: nat, rest: seq<Event>)
    requires n > 0
    ensures Outcomes(prevent, Errors(n) + rest) == Notifications(n) + Outcomes(true, rest)
    decreases n
  {
    assert (Errors(n) + rest)[0] == BuildError("development");
    assert (Errors(n) + rest)[1..] == Errors(n - 1) + rest;
    if n > 1 {
      ErrorsOutcomes(true, n - 1, rest);
    }
  }

  /** Outside development an error is thrown on and the flag is left as
      it was; a reload request always clears it. */
  lemma ProductionErrorsKeepFlag(prevent: bool, env: string)
    ensures !IsDevelopment(env) ==> Step(prevent, BuildError(env)) == (prevent, Rethrown)
    ensures !Step(prevent, ReloadRequest).0
    ensures Step(prevent, ReloadRequest).1 == Reloaded <==> !prevent
  {
  }

  /** The module-level `preventNextReload`. */
  class ReloadGuard {
    var preventNextReload: bool

    /** `let preventNextReload;`: undefined, which reads as false. */
    constructor()
      ensures !preventNextReload
    {
      preventNextReload := false;
    }

    /** `reload()`: returns whether `browserSync.reload()` was called. */
    method Reload() returns (reloaded: bool)
      modifies this
      ensures (preventNextReload, if reloaded then Reloaded else Suppressed) == Step(old(preventNextReload), ReloadRequest)
    {
      if preventNextReload {
        preventNextReload := false;
        return false;
      }
      reloaded := true;
    }

    /** `handleBuildError(headline, error)`: returns whether the error is
        thrown on. */
    method HandleBuildError(env: string) returns (rethrown: bool)
      modifies this
      ensures (preventNextReload, if rethrown then Rethrown else Notified) == Step(old(preventNextReload), BuildError(env))
    {
      if IsDevelopment(env) {
        preventNextReload := true;
        rethrown := false;
      } else {
        rethrown := true;
      }
    }
  }
}
