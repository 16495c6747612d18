/**
 The compositor and xdg-shell handlers as they update their tables, each proved against the
 function on states in PreCommitHooks.
 */
module SurfaceHandlers {
  import P = PreCommitHooks

  class Handlers {
    var everUsed: set<P.Surface>
    var alive: set<P.Surface>
    var toplevels: set<P.Surface>
    var unmapped: set<P.Surface>
    var layout: map<P.Surface, P.HookId>
    var defaultHooks: map<P.Surface, P.HookId>
    var roots: map<P.Surface, P.Surface>
    var attached: map<P.Surface, set<P.HookId>>
    var nextHook: P.HookId
    var complained: bool
    var crashed: bool

    ghost function View(): P.State
      reads this
    {
      P.State(everUsed, alive, toplevels, unmapped, layout, defaultHooks, roots, attached, nextHook,
              complained, crashed)
    }

    // The default hooks are on exactly the live surfaces that are not mapped toplevels, and nothing
    // went wrong.
    ghost predicate Valid()
      reads this
    {
      P.Inv(View())
    }

    ghost predicate Awaits(e: P.Event)
      reads this
    {
      Valid() && P.CanHappen(View(), e)
    }

    constructor ()
      ensures View() == P.EMPTY && Valid()
    {
      everUsed, alive, toplevels, unmapped := {}, {}, {}, {};
      layout, defaultHooks, roots, attached := map[], map[], map[], map[];
      nextHook, complained, crashed := 0, false, false;
    }

    method AddPreCommitHook(f: P.Surface) returns (hook: P.HookId)
      modifies this`attached, this`nextHook
      ensures View() == P.Attach(old(View()), f) && hook == old(nextHook)
    {
      hook := nextHook;
      nextHook := nextHook + 1;
      if f in attached {
        attached := attached[f := attached[f] + {hook}];
      }
    }

    method RemovePreCommitHook(f: P.Surface, hook: P.HookId)
      modifies this`attached
      ensures View() == P.Detach(old(View()), f, hook)
    {
      if f in attached {
        attached := attached[f := attached[f] - {hook}];
      }
    }

    method AddDefaultDmabufPreCommitHook(f: P.Surface)
      modifies this
      ensures View() == P.AddDefaultHook(old(View()), f)
    {
      if f !in alive {
        complained := true;
        return;
      }
      var hook := AddPreCommitHook(f);
      var known := f in defaultHooks;
      var prev := if known then defaultHooks[f] else 0;
      defaultHooks := defaultHooks[f := hook];
      if known {
        complained := true;
        RemovePreCommitHook(f, prev);
      }
    }

    method RemoveDefaultDmabufPreCommitHook(f: P.Surface)
      modifies this
      ensures View() == P.RemoveDefaultHook(old(View()), f)
    {
      if f in defaultHooks {
        var hook := defaultHooks[f];
        defaultHooks := defaultHooks - {f};
        RemovePreCommitHook(f, hook);
      } else {
        complained := true;
      }
    }

    method NewSurface(f: P.Surface)
      modifies this
      ensures View() == P.Step(old(View()), P.NewSurface(f))
      ensures old(Awaits(P.NewSurface(f))) ==> Valid()
    {
      if Awaits(P.NewSurface(f)) { P.StepKeeps(View(), P.NewSurface(f)); }
      everUsed := everUsed + {f};
      alive := alive + {f};
      attached := attached[f := {}];
      AddDefaultDmabufPreCommitHook(f);
    }

    method NewToplevel(f: P.Surface)
      modifies this
      ensures View() == P.Step(old(View()), P.NewToplevel(f))
      ensures old(Awaits(P.NewToplevel(f))) ==> Valid()
    {
      if Awaits(P.NewToplevel(f)) { P.StepKeeps(View(), P.NewToplevel(f)); }
      toplevels := toplevels + {f};
      var existing := f in unmapped;
      unmapped := unmapped + {f};
      if existing {
        crashed := true;
      }
    }

    method RemoveWindow(f: P.Surface)
      requires f in layout
      modifies this
      ensures View() == P.RemoveWindow(old(View()), f)
    {
      var hook := layout[f];
      layout := layout - {f};
      RemovePreCommitHook(f, hook);
    }

    method Commit(f: P.Surface, root: P.Surface, mapped: bool)
      modifies this
      ensures View() == P.Step(old(View()), P.Commit(f, root, mapped))
      ensures old(Awaits(P.Commit(f, root, mapped))) ==> Valid()
    {
      if Awaits(P.Commit(f, root, mapped)) { P.StepKeeps(View(), P.Commit(f, root, mapped)); }
      roots := roots[f := root];
      if f != root {
        return;
      }
      if f in unmapped {
        if mapped {
          unmapped := unmapped - {f};
          RemoveDefaultDmabufPreCommitHook(f);
          var hook := AddPreCommitHook(f);
          layout := layout[f := hook];
        }
        return;
      }
      if f in layout && !mapped {
        RemoveWindow(f);
        AddDefaultDmabufPreCommitHook(f);
        unmapped := unmapped + {f};
      }
    }

    method ToplevelDestroyed(f: P.Surface)
      modifies this
      ensures View() == P.Step(old(View()), P.ToplevelDestroyed(f))
      ensures old(Awaits(P.ToplevelDestroyed(f))) ==> Valid()
    {
      if Awaits(P.ToplevelDestroyed(f)) { P.StepKeeps(View(), P.ToplevelDestroyed(f)); }
      toplevels := toplevels - {f};
      if f in unmapped {
        unmapped := unmapped - {f};
        return;
      }
      if f !in layout {
        complained := true;
        return;
      }
      RemoveWindow(f);
      if f in alive {
        AddDefaultDmabufPreCommitHook(f);
      }
    }

    method SurfaceDestroyed(f: P.Surface)
      modifies this
      ensures View() == P.Step(old(View()), P.SurfaceDestroyed(f))
      ensures old(Awaits(P.SurfaceDestroyed(f))) ==> Valid()
    {
      if Awaits(P.SurfaceDestroyed(f)) { P.StepKeeps(View(), P.SurfaceDestroyed(f)); }
      alive := alive - {f};
      roots := map k | k in roots && k != f && roots[k] != f :: roots[k];
      if f in defaultHooks {
        var hook := defaultHooks[f];
        defaultHooks := defaultHooks - {f};
        RemovePreCommitHook(f, hook);
      }
      attached := attached - {f};
    }
  }
}
