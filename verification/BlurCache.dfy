/**
 The cached blur region of a surface. The client's region is double-buffered: a request changes
 the pending region, a commit request queues it, and the queued region becomes current when the
 commit is applied, which may be later. The cache recomputes its rectangles only when marked dirty,
 and is marked in two stages, one flag for the request and one for the applied commit.
 */
module BlurCache {
  import opened Options
  import opened Regions

  datatype View = View(
    pending: Option<Region>,
    queued: seq<Option<Region>>,
    current: Option<Region>,
    pendingDirty: bool,
    dirty: bool,
    hookRegistered: bool,
    rects: Option<seq<Rect>>)

  datatype Event =
    | Change(region: Option<Region>)   // set_blur_region and unset_blur_region
    | CommitRequest
    | Apply(commits: nat)              // the oldest commits take effect together
    | Get

  const FRESH := View(None, [], None, false, false, false, None)

  ghost function Recomputed(region: Option<Region>): Option<seq<Rect>> {
    match region
    case None => None
    case Some(r) => Some(Swept(r))
  }

  // What a lookup returns.
  ghost function Answer(s: View): Option<seq<Rect>> {
    if s.dirty then Recomputed(s.current) else s.rects
  }

  ghost predicate Coherent(s: View) {
    Answer(s) == Recomputed(s.current)
  }

  predicate CanHappen(s: View, e: Event) {
    e.Apply? ==> 0 < e.commits <= |s.queued|
  }

  function Marked(s: View): View {
    if s.hookRegistered && s.pendingDirty then s.(pendingDirty := false, dirty := true) else s
  }

  ghost function Step(s: View, e: Event): View
    requires CanHappen(s, e)
  {
    match e
    case Change(region) => s.(pending := region, pendingDirty := true, hookRegistered := true)
    case CommitRequest => s.(queued := s.queued + [s.pending])
    case Apply(n) => Marked(s.(current := s.queued[n - 1], queued := s.queued[n..]))
    case Get => s.(dirty := false, rects := Answer(s))
  }

  ghost predicate IsRun(s: View, es: seq<Event>)
    decreases |es|
  {
    es == [] || (CanHappen(s, es[0]) && IsRun(Step(s, es[0]), es[1..]))
  }

  ghost function Exec(s: View, es: seq<Event>): View
    requires IsRun(s, es)
    decreases |es|
  {
    if es == [] then s else Exec(Step(s, es[0]), es[1..])
  }

  // --- Coherence ------------------------------------------------------------------------------

  // No region change falls between a commit request and its application.
  ghost predicate Disciplined(s: View, es: seq<Event>)
    requires IsRun(s, es)
    decreases |es|
  {
    es == [] ||
    ((es[0].Change? ==> s.queued == []) && Disciplined(Step(s, es[0]), es[1..]))
  }

  ghost predicate Settled(s: View) {
    && (forall i :: 0 <= i < |s.queued| ==> s.queued[i] == s.pending)
    && (!s.pendingDirty ==> s.pending == s.current)
    && (s.pendingDirty ==> s.hookRegistered)
    && Coherent(s)
  }

  lemma {:induction false} SettledRun(s: View, es: seq<Event>)
    requires Settled(s) && IsRun(s, es) && Disciplined(s, es)
    ensures Settled(Exec(s, es))
    decreases |es|
  {
    if es != [] {
      SettledRun(Step(s, es[0]), es[1..]);
    }
  }

  // In every such run a lookup returns what recomputing from the current region would.
  lemma {:induction false} LookupIsRecomputation(es: seq<Event>)
    requires IsRun(FRESH, es) && Disciplined(FRESH, es)
    ensures Answer(Exec(FRESH, es)) == Recomputed(Exec(FRESH, es).current)
  {
    SettledRun(FRESH, es);
  }

  // Hence its rectangles do not overlap and cover exactly the points of the current region.
  lemma {:induction false} LookupCoversTheRegion(es: seq<Event>, px: int, py: int)
    requires IsRun(FRESH, es) && Disciplined(FRESH, es)
    ensures var s := Exec(FRESH, es);
            && (Answer(s).Some? <==> s.current.Some?)
            && (s.current.Some? ==>
                  && Tidy(Answer(s).value)
                  && (InRects(Answer(s).value, px, py) <==> Contains(s.current.value, px, py)))
  {
    LookupIsRecomputation(es);
    var s := Exec(FRESH, es);
    if s.current.Some? {
      SweptTidy(s.current.value);
      SweptExact(s.current.value, px, py);
    }
  }

  // --- Without the discipline -----------------------------------------------------------------

  // Whether a region change was requested after the last applied commit.
  predicate ChangedSinceApply(es: seq<Event>) {
    es != [] &&
    (var last := es[|es| - 1];
     last.Change? || (!last.Apply? && ChangedSinceApply(es[..|es| - 1])))
  }

  lemma {:induction false} RunExtends(s: View, es: seq<Event>, e: Event)
    ensures IsRun(s, es + [e]) <==> IsRun(s, es) && CanHappen(Exec(s, es), e)
    ensures IsRun(s, es + [e]) ==> Exec(s, es + [e]) == Step(Exec(s, es), e)
    decreases |es|
  {
    if es == [] {
      assert (es + [e])[1..] == [];
    } else {
      assert (es + [e])[0] == es[0] && (es + [e])[1..] == es[1..] + [e];
      if CanHappen(s, es[0]) {
        RunExtends(Step(s, es[0]), es[1..], e);
      }
    }
  }

  // The first flag says exactly that, in every run.
  lemma {:induction false} PendingDirtyExactlyWhen(es: seq<Event>)
    requires IsRun(FRESH, es)
    ensures Exec(FRESH, es).pendingDirty <==> ChangedSinceApply(es)
    ensures Exec(FRESH, es).pendingDirty ==> Exec(FRESH, es).hookRegistered
    decreases |es|
  {
    if es != [] {
      var before := es[..|es| - 1];
      assert es == before + [es[|es| - 1]];
      RunExtends(FRESH, before, es[|es| - 1]);
      PendingDirtyExactlyWhen(before);
    }
  }

  // In any run at all, an applied commit leaves a coherent cache coherent exactly when a change
  // was requested since the previous applied commit, or the cache still waits to be recomputed,
  // or the new region gives the same rectangles.
  lemma {:induction false} ApplyKeepsCoherenceExactlyWhen(es: seq<Event>, n: nat)
    requires IsRun(FRESH, es) && Coherent(Exec(FRESH, es)) && CanHappen(Exec(FRESH, es), Apply(n))
    ensures var s := Exec(FRESH, es);
            Coherent(Step(s, Apply(n))) <==>
              || ChangedSinceApply(es)
              || s.dirty
              || Recomputed(s.queued[n - 1]) == Recomputed(s.current)
  {
    PendingDirtyExactlyWhen(es);
  }

  // A second change that overtakes the first one's commit is lost: its own commit finds the flag
  // already spent, and the lookup keeps returning the old rectangles.
  lemma OvertakingChangeIsLost(r: Region)
    ensures var es := [Change(Some(r)), CommitRequest, Change(None), Apply(1), Get, CommitRequest, Apply(1)];
            && IsRun(FRESH, es)
            && Exec(FRESH, es).current == None
            && Answer(Exec(FRESH, es)) == Some(Swept(r))
  {
    var s1 := Step(FRESH, Change(Some(r)));
    var s2 := Step(s1, CommitRequest);
    var s3 := Step(s2, Change(None));
    var s4 := Step(s3, Apply(1));
    var s5 := Step(s4, Get);
    var s6 := Step(s5, CommitRequest);
    assert s6.queued == [None];
    var es := [Change(Some(r)), CommitRequest, Change(None), Apply(1), Get, CommitRequest, Apply(1)];
    var e0: seq<Event> := [];
    var e1 := e0 + [Change(Some(r))];
    var e2 := e1 + [CommitRequest];
    var e3 := e2 + [Change(None)];
    var e4 := e3 + [Apply(1)];
    var e5 := e4 + [Get];
    var e6 := e5 + [CommitRequest];
    RunExtends(FRESH, e0, Change(Some(r)));
    RunExtends(FRESH, e1, CommitRequest);
    RunExtends(FRESH, e2, Change(None));
    RunExtends(FRESH, e3, Apply(1));
    RunExtends(FRESH, e4, Get);
    RunExtends(FRESH, e5, CommitRequest);
    RunExtends(FRESH, e6, Apply(1));
    assert es == e6 + [Apply(1)];
  }

  // --- The surface's user data ----------------------------------------------------------------

  class Surface {
    var pending: Option<Region>
    var queued: seq<Option<Region>>
    var current: Option<Region>
    var pendingDirty: bool
    var dirty: bool
    var hookRegistered: bool
    var rects: Option<seq<Rect>>

    ghost function Now(): View
      reads this
    {
      View(pending, queued, current, pendingDirty, dirty, hookRegistered, rects)
    }

    constructor ()
      ensures Now() == FRESH
    {
      pending, queued, current, rects := None, [], None, None;
      pendingDirty, dirty, hookRegistered := false, false, false;
    }

    method ChangeRegion(region: Option<Region>)
      modifies this
      ensures Now() == Step(old(Now()), Change(region))
    {
      pending := region;
      pendingDirty := true;
      if !hookRegistered {
        hookRegistered := true;
      }
    }

    method RequestCommit()
      modifies this
      ensures Now() == Step(old(Now()), CommitRequest)
    {
      queued := queued + [pending];
    }

    method ApplyCommits(n: nat)
      requires CanHappen(Now(), Apply(n))
      modifies this
      ensures Now() == Step(old(Now()), Apply(n))
    {
      current, queued := queued[n - 1], queued[n..];
      if hookRegistered {
        PostCommitHook();
      }
    }

    method PostCommitHook()
      modifies this
      ensures Now() == old(Now()).(pendingDirty := false, dirty := old(dirty) || old(pendingDirty))
    {
      if pendingDirty {
        pendingDirty := false;
        dirty := true;
      }
    }

    method GetCachedBlurRegion() returns (r: Option<seq<Rect>>)
      modifies this
      ensures Now() == Step(old(Now()), Get)
      ensures r == Answer(old(Now()))
    {
      if dirty {
        dirty := false;
        RecomputeBlurRegion();
      }
      r := rects;
    }

    method RecomputeBlurRegion()
      modifies this`rects
      ensures rects == Recomputed(current)
    {
      match current {
        case Some(region) =>
          var output := RegionToNonOverlappingRects(region);
          rects := Some(output);
        case None =>
          rects := None;
      }
    }
  }
}
