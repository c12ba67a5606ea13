/**
 * The route-change overlay (`components/common/PageLoadingSpinner.tsx`).
 * An effect runs whenever the pathname or the query string changes; when
 * the path differs from the recorded one it raises `loading` and starts a
 * short timer whose firing lowers it again. The timer is an explicit event
 * here, and a timer is cleared when the effect runs again before it fires.
 */
module PageLoadingSpinner {
  import opened Options
  import opened Text

  /** `pathname + (searchParams?.toString() || "")`: the two are joined with no separator. */
  function CurrentPath(pathname: string, search: Option<string>): (path: string)
    ensures |path| == |pathname| + |OrElse(search, "")| && path[..|pathname|] == pathname
    ensures path[|pathname|..] == OrElse(search, "")
  {
    pathname + OrElse(search, "")
  }

  /** The overlay's state: the flag, the recorded path, and whether a timer is pending. */
  datatype SpinnerState = SpinnerState(loading: bool, prevPath: string, timerPending: bool)

  const Initial: SpinnerState := SpinnerState(false, "", false)

  /** On exactly while a timer is pending, so every raise is followed by a lowering. */
  predicate Coherent(s: SpinnerState) {
    s.loading == s.timerPending
  }

  /**
   * The effect as written for the new path `current`. A recorded path that
   * differs raises the flag and starts the timer but is not replaced; in
   * every other case (nothing recorded yet, or the same path) `current` is
   * recorded, the flag lowered and any timer cleared.
   */
  function EffectStep(s: SpinnerState, current: string): (r: SpinnerState)
    ensures Coherent(r)
    ensures r.loading <==> s.prevPath != "" && s.prevPath != current
    ensures r.prevPath == if r.loading then s.prevPath else current
  {
    if s.prevPath != "" && s.prevPath != current then SpinnerState(true, s.prevPath, true)
    else SpinnerState(false, current, false)
  }

  /** The timer firing lowers the flag; a cleared timer never fires. */
  function TimerStep(s: SpinnerState): (r: SpinnerState)
    ensures r.prevPath == s.prevPath && !r.timerPending
    ensures r.loading == (s.loading && !s.timerPending)
    ensures Coherent(s) ==> Coherent(r) && !r.loading
  {
    if s.timerPending then SpinnerState(false, s.prevPath, false) else s
  }

  /** `if (!loading) return null`: the overlay and its "로딩 중..." caption exist only while loading. */
  function Overlay(s: SpinnerState): (caption: Option<string>)
    ensures caption.Some? <==> s.loading
    ensures caption.Some? ==> caption.value == "로딩 중..."
  {
    if s.loading then Some("로딩 중...") else None
  }

  /** The first run records the path and never shows the overlay. */
  lemma FirstRunShowsNothing(current: string)
    ensures !EffectStep(Initial, current).loading
    ensures EffectStep(Initial, current).prevPath == current
  {
  }

  /** The effect run, as written, for each path in turn. */
  function RunEffects(s: SpinnerState, paths: seq<string>): SpinnerState
    decreases |paths|
  {
    if paths == [] then s else RunEffects(EffectStep(s, paths[0]), paths[1..])
  }

  /** As written, once a path is recorded it is never replaced, whatever the later paths. */
  lemma {:induction false} RecordedPathIsFirst(s: SpinnerState, paths: seq<string>)
    requires s.prevPath != ""
    ensures RunEffects(s, paths).prevPath == s.prevPath
    decreases |paths|
  {
    if paths != [] {
      RecordedPathIsFirst(EffectStep(s, paths[0]), paths[1..]);
    }
  }

  /**
   * As written, returning to the first page visited shows no overlay,
   * although the path has changed: "/" then "/community" then "/".
   */
  lemma AsWrittenBackToFirstPage()
    ensures var before := TimerStep(RunEffects(Initial, ["/", "/community"]));
      && before.prevPath == "/"
      && !EffectStep(before, "/").loading
  {
    var s1 := EffectStep(Initial, "/");
    assert s1.prevPath == "/";
    var s2 := EffectStep(s1, "/community");
    assert s2.prevPath == "/";
    assert RunEffects(Initial, ["/", "/community"]) == RunEffects(s1, ["/community"]);
    assert RunEffects(s1, ["/community"]) == RunEffects(s2, []);
  }

  /** As intended: the new path is recorded on every run, so the next run compares with the page just left. */
  function CorrectedEffectStep(s: SpinnerState, current: string): (r: SpinnerState)
    ensures Coherent(r)
    ensures r.loading <==> s.prevPath != "" && s.prevPath != current
    ensures r.prevPath == current
  {
    if s.prevPath != "" && s.prevPath != current then SpinnerState(true, current, true)
    else SpinnerState(false, current, false)
  }

  /** The corrected effect run for each path in turn. */
  function RunCorrected(s: SpinnerState, paths: seq<string>): SpinnerState
    decreases |paths|
  {
    if paths == [] then s else RunCorrected(CorrectedEffectStep(s, paths[0]), paths[1..])
  }

  /** With the correction the recorded path is always the last one visited. */
  lemma {:induction false} CorrectedRecordsLast(s: SpinnerState, paths: seq<string>)
    requires paths != []
    ensures RunCorrected(s, paths).prevPath == paths[|paths| - 1]
    decreases |paths|
  {
    if |paths| > 1 {
      CorrectedRecordsLast(CorrectedEffectStep(s, paths[0]), paths[1..]);
    }
  }

  /**
   * With the correction, after any visits the overlay appears exactly when
   * the next path differs from the last one visited (when that is not
   * empty); in particular the way back to the first page shows it.
   */
  lemma CorrectedShowsEveryChange(paths: seq<string>, next: string)
    requires paths != [] && paths[|paths| - 1] != ""
    ensures CorrectedEffectStep(RunCorrected(Initial, paths), next).loading <==> next != paths[|paths| - 1]
  {
    CorrectedRecordsLast(Initial, paths);
  }

  class Spinner {
    var loading: bool
    var prevPath: string
    var timerPending: bool

    ghost function State(): SpinnerState
      reads this
    {
      SpinnerState(loading, prevPath, timerPending)
    }

    ghost predicate Valid()
      reads this
    {
      Coherent(State())
    }

    /** Not loading, nothing recorded, no timer. */
    constructor ()
      ensures Valid() && State() == Initial
    {
      loading := false;
      prevPath := "";
      timerPending := false;
    }

    /** The effect for the current pathname and query string, as written. */
    method Effect(pathname: string, search: Option<string>)
      modifies this
      ensures Valid()
      ensures State() == EffectStep(old(State()), CurrentPath(pathname, search))
    {
      var current := pathname + OrElse(search, "");
      if prevPath != "" && prevPath != current {
        loading := true;
        timerPending := true;
      } else {
        prevPath := current;
        loading := false;
        timerPending := false;
      }
    }

    /** The 200 ms timer fires, if it is still pending. */
    method TimerFired()
      requires Valid()
      modifies this
      ensures Valid() && !loading
      ensures State() == TimerStep(old(State()))
    {
      if timerPending {
        loading := false;
        timerPending := false;
      }
    }
  }
}
