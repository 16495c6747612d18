/**
 Pre-commit hooks of surfaces. A surface that commits a dmabuf must wait for it: a default hook does
 that for every surface except mapped toplevels, which have a hook of their own. The two are
 exchanged when a toplevel maps or unmaps, and surface and toplevel may be destroyed in any order.
 */
module PreCommitHooks {
  type Surface = int
  type HookId = nat

  datatype State = State(
    everUsed: set<Surface>,              // identities of surfaces are not reused
    alive: set<Surface>,
    toplevels: set<Surface>,             // surfaces whose toplevel object exists
    unmapped: set<Surface>,              // unmapped_windows
    layout: map<Surface, HookId>,        // mapped toplevels, each with its own hook
    defaultHooks: map<Surface, HookId>,  // dmabuf_pre_commit_hook
    roots: map<Surface, Surface>,        // the cached root surfaces
    attached: map<Surface, set<HookId>>, // the hooks that will run when a live surface commits
    nextHook: HookId,
    complained: bool,                    // one of the errors of this bookkeeping was reported
    crashed: bool)                       // the assertion on a new toplevel failed

  const EMPTY := State({}, {}, {}, {}, map[], map[], map[], map[], 0, false, false)

  datatype Event =
    | NewSurface(surface: Surface)
    | NewToplevel(surface: Surface)
    | Commit(surface: Surface, root: Surface, mapped: bool)
    | ToplevelDestroyed(surface: Surface)
    | SurfaceDestroyed(surface: Surface)

  // Toplevels are their own roots, a role that is not a toplevel's has no toplevel object, and
  // objects are created and destroyed once.
  predicate CanHappen(s: State, e: Event) {
    match e
    case NewSurface(f) => f !in s.everUsed
    case NewToplevel(f) => f in s.alive && f !in s.toplevels
    case Commit(f, root, _) => f in s.alive && root in s.alive && (f in s.toplevels ==> root == f)
    case ToplevelDestroyed(f) => f in s.toplevels
    case SurfaceDestroyed(f) => f in s.alive
  }

  // --- Hooks on a surface ---------------------------------------------------------------------

  function Attach(s: State, f: Surface): State {
    s.(attached := if f in s.attached then s.attached[f := s.attached[f] + {s.nextHook}] else s.attached,
       nextHook := s.nextHook + 1)
  }

  function Detach(s: State, f: Surface, hook: HookId): State {
    if f in s.attached then s.(attached := s.attached[f := s.attached[f] - {hook}]) else s
  }

  function AddDefaultHook(s: State, f: Surface): State {
    if f !in s.alive then s.(complained := true)
    else
      var s1 := Attach(s, f).(defaultHooks := s.defaultHooks[f := s.nextHook]);
      if f in s.defaultHooks then Detach(s1, f, s.defaultHooks[f]).(complained := true) else s1
  }

  function RemoveDefaultHook(s: State, f: Surface): State {
    if f in s.defaultHooks
    then Detach(s, f, s.defaultHooks[f]).(defaultHooks := s.defaultHooks - {f})
    else s.(complained := true)
  }

  // --- Events -----------------------------------------------------------------------------------

  function Create(s: State, f: Surface): State {
    AddDefaultHook(
      s.(everUsed := s.everUsed + {f}, alive := s.alive + {f}, attached := s.attached[f := {}]), f)
  }

  function AddToplevel(s: State, f: Surface): State {
    s.(toplevels := s.toplevels + {f}, unmapped := s.unmapped + {f},
       crashed := s.crashed || f in s.unmapped)
  }

  function Map(s: State, f: Surface): State {
    var s1 := RemoveDefaultHook(s.(unmapped := s.unmapped - {f}), f);
    Attach(s1, f).(layout := s1.layout[f := s1.nextHook])
  }

  // Dropping the window drops its hook.
  function RemoveWindow(s: State, f: Surface): State
    requires f in s.layout
  {
    Detach(s, f, s.layout[f]).(layout := s.layout - {f})
  }

  function Unmap(s: State, f: Surface): State
    requires f in s.layout
  {
    var s1 := AddDefaultHook(RemoveWindow(s, f), f);
    s1.(unmapped := s1.unmapped + {f})
  }

  function OnCommit(s: State, f: Surface, root: Surface, mapped: bool): State {
    var s1 := s.(roots := s.roots[f := root]);
    if f != root then s1
    else if f in s.unmapped then if mapped then Map(s1, f) else s1
    else if f in s.layout && !mapped then Unmap(s1, f)
    else s1
  }

  function DestroyToplevel(s: State, f: Surface): State {
    var s1 := s.(toplevels := s.toplevels - {f});
    if f in s.unmapped then s1.(unmapped := s.unmapped - {f})
    else if f !in s.layout then s1.(complained := true)
    else
      var s2 := RemoveWindow(s1, f);
      if f in s2.alive then AddDefaultHook(s2, f) else s2
  }

  function DestroySurface(s: State, f: Surface): State {
    s.(alive := s.alive - {f},
       attached := s.attached - {f},
       roots := map k | k in s.roots && k != f && s.roots[k] != f :: s.roots[k],
       defaultHooks := s.defaultHooks - {f})
  }

  function Step(s: State, e: Event): State {
    match e
    case NewSurface(f) => Create(s, f)
    case NewToplevel(f) => AddToplevel(s, f)
    case Commit(f, root, mapped) => OnCommit(s, f, root, mapped)
    case ToplevelDestroyed(f) => DestroyToplevel(s, f)
    case SurfaceDestroyed(f) => DestroySurface(s, f)
  }

  ghost predicate IsRun(s: State, es: seq<Event>)
    decreases |es|
  {
    es == [] || (CanHappen(s, es[0]) && IsRun(Step(s, es[0]), es[1..]))
  }

  function Exec(s: State, es: seq<Event>): State
    decreases |es|
  {
    if es == [] then s else Exec(Step(s, es[0]), es[1..])
  }

  // --- What every step keeps --------------------------------------------------------------------

  ghost predicate Inv(s: State) {
    && !s.complained && !s.crashed
    && s.alive <= s.everUsed && s.toplevels <= s.everUsed
    && s.unmapped + s.layout.Keys == s.toplevels
    && s.unmapped !! s.layout.Keys
    && s.defaultHooks.Keys == s.alive - s.layout.Keys
    && s.attached.Keys == s.alive
    && (forall f :: f in s.alive ==> OneHook(s, f))
    && (forall f :: f in s.roots ==> f in s.alive && s.roots[f] in s.alive)
  }

  // Exactly one hook runs: the window's own if there is a mapped toplevel, else the default.
  ghost predicate OneHook(s: State, f: Surface) {
    f in s.attached &&
    (if f in s.layout then s.attached[f] == {s.layout[f]}
     else f in s.defaultHooks && s.attached[f] == {s.defaultHooks[f]})
  }

  lemma CreateKeeps(s: State, f: Surface)
    requires Inv(s) && f !in s.everUsed
    ensures Inv(Create(s, f))
  {
    var t := Create(s, f);
    assert f !in s.toplevels && f !in s.layout.Keys;
    forall g | g in t.alive ensures OneHook(t, g) {
      if g != f { assert OneHook(s, g); }
    }
  }

  lemma MapKeeps(s: State, f: Surface)
    requires Inv(s) && f in s.alive && f in s.unmapped
    ensures Inv(Map(s, f))
  {
    var t := Map(s, f);
    assert f !in s.layout.Keys && OneHook(s, f);
    forall g | g in t.alive ensures OneHook(t, g) {
      assert OneHook(s, g);
    }
  }

  lemma UnmapKeeps(s: State, f: Surface)
    requires Inv(s) && f in s.alive && f in s.layout
    ensures Inv(Unmap(s, f))
  {
    var t := Unmap(s, f);
    assert f in s.layout.Keys && OneHook(s, f);
    assert f !in s.defaultHooks.Keys;
    forall g | g in t.alive ensures OneHook(t, g) {
      assert OneHook(s, g);
    }
  }

  lemma DestroyToplevelKeeps(s: State, f: Surface)
    requires Inv(s) && f in s.toplevels
    ensures Inv(DestroyToplevel(s, f))
  {
    var t := DestroyToplevel(s, f);
    if f in s.layout {
      assert f in s.layout.Keys && f !in s.defaultHooks.Keys;
      assert f !in s.unmapped;
    }
    forall g | g in t.alive ensures OneHook(t, g) {
      assert OneHook(s, g);
    }
  }

  lemma DestroySurfaceKeeps(s: State, f: Surface)
    requires Inv(s) && f in s.alive
    ensures Inv(DestroySurface(s, f))
  {
    var t := DestroySurface(s, f);
    forall g | g in t.alive ensures OneHook(t, g) {
      assert OneHook(s, g);
    }
  }

  lemma StepKeeps(s: State, e: Event)
    requires Inv(s) && CanHappen(s, e)
    ensures Inv(Step(s, e))
  {
    match e
    case NewSurface(f) => CreateKeeps(s, f);
    case NewToplevel(f) => AddToplevelKeeps(s, f);
    case Commit(f, root, mapped) => CommitKeeps(s, f, root, mapped);
    case ToplevelDestroyed(f) => DestroyToplevelKeeps(s, f);
    case SurfaceDestroyed(f) => DestroySurfaceKeeps(s, f);
  }

  lemma AddToplevelKeeps(s: State, f: Surface)
    requires Inv(s) && f in s.alive && f !in s.toplevels
    ensures Inv(AddToplevel(s, f))
  {
    var t := AddToplevel(s, f);
    forall g | g in t.alive ensures OneHook(t, g) {
      assert OneHook(s, g);
    }
  }

  lemma CommitKeeps(s: State, f: Surface, root: Surface, mapped: bool)
    requires Inv(s) && CanHappen(s, Commit(f, root, mapped))
    ensures Inv(OnCommit(s, f, root, mapped))
  {
    var s1 := s.(roots := s.roots[f := root]);
    forall g | g in s1.alive ensures OneHook(s1, g) {
      assert OneHook(s, g);
    }
    assert Inv(s1);
    if f == root && f in s.unmapped && mapped {
      MapKeeps(s1, f);
    } else if f == root && f !in s.unmapped && f in s.layout && !mapped {
      UnmapKeeps(s1, f);
    }
  }

  lemma {:induction false} RunKeeps(s: State, es: seq<Event>)
    requires Inv(s) && IsRun(s, es)
    ensures Inv(Exec(s, es))
    decreases |es|
  {
    if es != [] {
      StepKeeps(s, es[0]);
      RunKeeps(Step(s, es[0]), es[1..]);
    }
  }

  // --- Theorems ---------------------------------------------------------------------------------

  // In every run the surfaces with the default hook are exactly the live ones that are not mapped
  // toplevels, exactly one hook is attached to each live surface, and no error is reported.
  lemma {:induction false} HooksExactly(es: seq<Event>)
    requires IsRun(EMPTY, es)
    ensures var s := Exec(EMPTY, es);
            && s.defaultHooks.Keys == s.alive - s.layout.Keys
            && s.attached.Keys == s.alive
            && (forall f :: f in s.alive ==> OneHook(s, f))
            && s.toplevels == s.unmapped + s.layout.Keys && s.unmapped !! s.layout.Keys
            && !s.complained && !s.crashed
  {
    RunKeeps(EMPTY, es);
  }

  // Once the objects are gone, so is every trace of them.
  lemma {:induction false} NothingIsLeftBehind(es: seq<Event>)
    requires IsRun(EMPTY, es)
    requires Exec(EMPTY, es).alive == {} && Exec(EMPTY, es).toplevels == {}
    ensures var s := Exec(EMPTY, es);
            s.unmapped == {} && s.layout == map[] && s.defaultHooks == map[] && s.roots == map[] && s.attached == map[]
  {
    RunKeeps(EMPTY, es);
    var s := Exec(EMPTY, es);
    assert s.layout.Keys == {} && s.defaultHooks.Keys == {} && s.attached.Keys == {};
    assert forall f :: f in s.roots ==> f in s.alive;
    assert s.roots.Keys == {};
  }

  // The order in which a surface and its toplevel go makes no difference, up to hook numbering.
  lemma DestructionOrderIsIrrelevant(s: State, f: Surface)
    requires Inv(s) && f in s.alive && f in s.toplevels
    ensures var a := DestroySurface(DestroyToplevel(s, f), f);
            var b := DestroyToplevel(DestroySurface(s, f), f);
            a.(nextHook := 0) == b.(nextHook := 0)
  {
    DestroyToplevelKeeps(s, f);
    DestroySurfaceKeeps(s, f);
    var a := DestroySurface(DestroyToplevel(s, f), f);
    var b := DestroyToplevel(DestroySurface(s, f), f);
    assert a.attached == s.attached - {f} == b.attached;
    assert a.layout == b.layout;
    assert a.roots == b.roots;
    assert f in s.layout ==> f in s.layout.Keys;
    assert a.defaultHooks == s.defaultHooks - {f} == b.defaultHooks;
    assert a.unmapped == s.unmapped - {f} == b.unmapped;
  }
}
