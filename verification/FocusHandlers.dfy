/**
 Updating the keyboard focus and granting popup grabs, as the handlers do it in place.
 */
module FocusHandlers {
  import opened Options
  import opened LayerShell
  import K = KeyboardFocus

  class Seat {
    var exitDialogOpen: bool
    var locked: bool
    var lockFocus: Option<K.Id>
    var screenshotUiOpen: bool
    var mruOpen: bool
    var hasActiveOutput: bool
    var layers: seq<K.Id>
    var info: K.Id -> K.LayerSurface
    var layoutFocus: Option<K.Id>
    var renderAboveTopLayer: bool
    var overviewOpen: bool
    var onDemandFocus: Option<K.Id>
    var popupGrab: Option<K.PopupGrab>
    var keyboardFocus: K.Focus

    ghost function View(): K.State
      reads this
    {
      K.State(exitDialogOpen, locked, lockFocus, screenshotUiOpen, mruOpen, hasActiveOutput, layers, info,
              layoutFocus, renderAboveTopLayer, overviewOpen, onDemandFocus, popupGrab, keyboardFocus)
    }

    constructor (info: K.Id -> K.LayerSurface)
      ensures View() == K.State(false, false, None, false, false, false, [], info, None, false, false, None, None,
                                K.Layout(None))
    {
      exitDialogOpen, locked, lockFocus, screenshotUiOpen, mruOpen := false, false, None, false, false;
      hasActiveOutput, layers, layoutFocus, renderAboveTopLayer := false, [], None, false;
      overviewOpen, onDemandFocus, popupGrab, keyboardFocus := false, None, None, K.Layout(None);
      this.info := info;
    }

    method ExclusiveFocusOn(layer: Layer) returns (f: Option<K.Focus>)
      ensures f == K.ExclusiveOn(View(), layer)
    {
      f := None;
      for i := 0 to |layers|
        invariant K.FirstExclusive(layers, info, layer) == K.FirstExclusive(layers[i..], info, layer)
      {
        var l := info(layers[i]);
        assert layers[i..][1..] == layers[i + 1..];
        if l.layer == layer && l.interactivity == K.Exclusive && l.mapped && !l.withinBackdrop {
          return Some(K.LayerShell(layers[i]));
        }
      }
    }

    method OnDemandFocusOn(layer: Layer) returns (f: Option<K.Focus>)
      ensures f == K.OnDemandOn(View(), layer)
    {
      f := None;
      for i := 0 to |layers|
        invariant K.FirstOnDemand(layers, info, layer, onDemandFocus) ==
                  K.FirstOnDemand(layers[i..], info, layer, onDemandFocus)
      {
        assert layers[i..][1..] == layers[i + 1..];
        if info(layers[i]).layer == layer && Some(layers[i]) == onDemandFocus {
          return Some(K.LayerShell(layers[i]));
        }
      }
    }

    method FocusOnLayer(layer: Layer) returns (f: Option<K.Focus>)
      ensures f == K.FocusOn(View(), layer)
    {
      f := ExclusiveFocusOn(layer);
      if f.None? {
        f := OnDemandFocusOn(layer);
      }
    }

    method FocusAboveTop() returns (f: Option<K.Focus>)
      ensures f == K.AboveTopFocus(View())
    {
      f := FocusOnLayer(Overlay);
      if f.None? && layoutFocus.Some? { f := Some(K.Layout(layoutFocus)); }
      if f.None? { f := FocusOnLayer(Top); }
      if f.None? { f := FocusOnLayer(Bottom); }
      if f.None? { f := FocusOnLayer(Background); }
    }

    method FocusBelowTop() returns (f: Option<K.Focus>)
      ensures f == K.BelowTopFocus(View())
    {
      f := FocusOnLayer(Overlay);
      if f.None? { f := FocusOnLayer(Top); }
      if f.None? && overviewOpen { f := Some(K.Overview); }
      if f.None? { f := OnDemandFocusOn(Bottom); }
      if f.None? { f := OnDemandFocusOn(Background); }
      if f.None? && layoutFocus.Some? { f := Some(K.Layout(layoutFocus)); }
      if f.None? { f := ExclusiveFocusOn(Bottom); }
      if f.None? { f := ExclusiveFocusOn(Background); }
    }

    method FocusOnOutput() returns (f: K.Focus)
      ensures f == K.OutputFocus(View())
    {
      var surface := K.GrabFocus(K.State(
        exitDialogOpen, locked, lockFocus, screenshotUiOpen, mruOpen, hasActiveOutput, layers, info,
        layoutFocus, renderAboveTopLayer, overviewOpen, onDemandFocus, popupGrab, keyboardFocus));
      if surface.None? {
        if renderAboveTopLayer {
          surface := FocusAboveTop();
        } else {
          surface := FocusBelowTop();
        }
      }
      f := if surface.Some? then surface.value else K.Layout(None);
    }

    method CleanUpOnDemandFocus()
      modifies this`onDemandFocus
      ensures View() == K.CleanOnDemand(old(View()))
    {
      if onDemandFocus.Some? {
        var l := info(onDemandFocus.value);
        var good := l.alive && l.interactivity == K.OnDemand;
        if l.mapped {
          if l.withinBackdrop {
            good := false;
          }
        } else {
          good := false;
        }
        if !good {
          onDemandFocus := None;
        }
      }
    }

    method CurrentFocus() returns (focus: K.Focus)
      ensures focus == K.ComputeFocus(View())
    {
      if exitDialogOpen {
        focus := K.ExitConfirmDialog;
      } else if locked {
        focus := K.LockScreen(lockFocus);
      } else if screenshotUiOpen {
        focus := K.ScreenshotUi;
      } else if mruOpen {
        focus := K.Mru;
      } else if hasActiveOutput {
        focus := FocusOnOutput();
      } else {
        focus := K.Layout(None);
      }
    }

    method ChangeFocus(focus: K.Focus)
      modifies this`popupGrab, this`keyboardFocus
      ensures View() == K.WithFocus(old(View()), focus)
    {
      if keyboardFocus != focus {
        if popupGrab.Some? && popupGrab.value.hasKeyboardGrab && Some(popupGrab.value.root) != focus.Surface() {
          popupGrab := None;
        }
        keyboardFocus := focus;
      }
    }

    method UpdateKeyboardFocus()
      modifies this
      ensures View() == K.Update(old(View()))
      ensures K.Update(View()) == View()
    {
      K.UpdateIsIdempotent(View());
      CleanUpOnDemandFocus();
      var focus := CurrentFocus();
      ChangeFocus(focus);
    }

    method LayerStandsInTheWay(layer: Layer) returns (blocked: bool)
      ensures blocked == K.LayerBlocks(View(), layer)
    {
      blocked := false;
      for i := 0 to |layers|
        invariant forall j :: 0 <= j < i ==> !K.Blocks(View(), layers[j], layer)
      {
        var l := info(layers[i]);
        if l.layer == layer && (l.interactivity == K.Exclusive || Some(layers[i]) == onDemandFocus) && l.mapped {
          assert K.Blocks(View(), layers[i], layer);
          return true;
        }
      }
    }

    method LadderRefuses(root: K.Id) returns (refused: bool)
      ensures refused == !K.MayGrab(View(), root)
    {
      if exitDialogOpen {
        return true;
      } else if locked {
        return Some(root) != lockFocus;
      } else if screenshotUiOpen {
        return true;
      } else if !hasActiveOutput {
        return true;
      }
      if root in layers {
        return info(root).mapped && info(root).withinBackdrop;
      }
      refused := LayerStandsInTheWay(Overlay);
      if !refused && !renderAboveTopLayer {
        refused := LayerStandsInTheWay(Top);
      }
      if !refused {
        refused := Some(root) != layoutFocus;
      }
    }

    method Grab(root: K.Id, seat: K.SeatState)
      modifies this`popupGrab
      ensures View() == K.Grab(old(View()), root, seat)
    {
      var refused := LadderRefuses(root);
      if refused || !seat.popupOk {
        return;
      }
      var keyboard := !seat.imeGrabbed;
      if keyboard && hasActiveOutput && root in layers {
        keyboard := info(root).CanReceiveKeyboardFocus();
      }
      var keyboardMismatches := seat.Mismatches(seat.keyboardGrab);
      var pointerMismatches := seat.Mismatches(seat.pointerGrab);
      if (keyboard && keyboardMismatches) || pointerMismatches {
        return;
      }
      popupGrab := Some(K.PopupGrab(root, keyboard));
    }
  }
}
