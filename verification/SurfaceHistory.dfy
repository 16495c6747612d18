/**
 What the surface tables remember of a run: which surfaces and toplevels there are, which toplevels are
 mapped, and which root each surface had at its last commit.
 */
module SurfaceHistory {
  import opened PreCommitHooks

  datatype Maybe<T> = Unknown | Known(value: T)

  // Whether a surface has a toplevel, and if so whether its last commit mapped it.
  function Mapping(m: Maybe<bool>, es: seq<Event>, f: Surface): Maybe<bool>
    decreases es
  {
    if es == [] then m
    else
      var e := es[0];
      Mapping(if e == NewToplevel(f) then Known(false)
              else if e == ToplevelDestroyed(f) then Unknown
              else if e.Commit? && e.surface == f && e.root == f && m.Known? then Known(e.mapped)
              else m, es[1..], f)
  }

  // The root of the last commit, as long as both surfaces live.
  function RootOf(r: Maybe<Surface>, es: seq<Event>, f: Surface): Maybe<Surface>
    decreases es
  {
    if es == [] then r
    else
      var e := es[0];
      RootOf(if e.Commit? && e.surface == f then Known(e.root)
             else if e.SurfaceDestroyed? && (e.surface == f || r == Known(e.surface)) then Unknown
             else r, es[1..], f)
  }

  function Living(alive: bool, es: seq<Event>, f: Surface): bool
    decreases es
  {
    if es == [] then alive
    else
      var e := es[0];
      Living(if e == NewSurface(f) then true else if e == SurfaceDestroyed(f) then false else alive, es[1..], f)
  }

  function MappingIn(s: State, f: Surface): Maybe<bool> {
    if f !in s.toplevels then Unknown else Known(f in s.layout)
  }

  function RootIn(s: State, f: Surface): Maybe<Surface> {
    if f in s.roots then Known(s.roots[f]) else Unknown
  }

  lemma {:induction false} MappingStep(s: State, e: Event, f: Surface)
    requires Inv(s) && CanHappen(s, e)
    ensures MappingIn(Step(s, e), f) == Mapping(MappingIn(s, f), [e], f)
  {
    assert [e][1..] == [];
    assert f in s.toplevels <==> f in s.unmapped || f in s.layout.Keys;
    assert f in s.unmapped ==> f !in s.layout.Keys;
  }

  lemma {:induction false} RootStep(s: State, e: Event, f: Surface)
    requires Inv(s) && CanHappen(s, e)
    ensures RootIn(Step(s, e), f) == RootOf(RootIn(s, f), [e], f)
    ensures (f in Step(s, e).alive) == Living(f in s.alive, [e], f)
  {
    assert [e][1..] == [];
  }

  // After any run a toplevel is in the layout exactly if its last commit mapped it, and unmapped
  // exactly if it has none or that unmapped it; the cached root is that of the last commit while both
  // surfaces live; and the live surfaces are those created and not destroyed.
  lemma {:induction false} HistoryOfSurfaces(s: State, es: seq<Event>, f: Surface)
    requires Inv(s) && IsRun(s, es)
    ensures MappingIn(Exec(s, es), f) == Mapping(MappingIn(s, f), es, f)
    ensures RootIn(Exec(s, es), f) == RootOf(RootIn(s, f), es, f)
    ensures (f in Exec(s, es).alive) == Living(f in s.alive, es, f)
    decreases es
  {
    if es != [] {
      MappingStep(s, es[0], f);
      RootStep(s, es[0], f);
      StepKeeps(s, es[0]);
      HistoryOfSurfaces(Step(s, es[0]), es[1..], f);
      assert [es[0]][1..] == [];
    }
  }

  lemma {:induction false} MappedExactlyWhen(es: seq<Event>, f: Surface)
    requires IsRun(EMPTY, es)
    ensures var s := Exec(EMPTY, es);
            && (f in s.layout <==> Mapping(Unknown, es, f) == Known(true))
            && (f in s.unmapped <==> Mapping(Unknown, es, f) == Known(false))
  {
    HistoryOfSurfaces(EMPTY, es, f);
    RunKeeps(EMPTY, es);
    var s := Exec(EMPTY, es);
    assert f in s.toplevels <==> f in s.unmapped || f in s.layout.Keys;
    assert f in s.unmapped ==> f !in s.layout.Keys;
  }
}
