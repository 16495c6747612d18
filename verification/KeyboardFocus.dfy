/**
 Where keyboard focus goes, and whether a popup may grab it. Both walk through the same ladder of
 modal dialogs, lock screen, layer-shell surfaces and windows, in two separate pieces of code that
 are meant to agree.
 */
module KeyboardFocus {
  import opened Options
  import opened LayerShell

  type Id = int

  datatype Interactivity = NoKeyboard | OnDemand | Exclusive

  datatype LayerSurface = LayerSurface(
    alive: bool,
    layer: Layer,
    interactivity: Interactivity,
    mapped: bool,
    withinBackdrop: bool)
  {
    predicate CanReceiveKeyboardFocus() { interactivity != NoKeyboard }
  }

  datatype Focus =
    | Layout(window: Option<Id>)
    | LayerShell(layerSurface: Id)
    | LockScreen(lockSurface: Option<Id>)
    | ScreenshotUi
    | ExitConfirmDialog
    | Overview
    | Mru
  {
    function Surface(): Option<Id> {
      match this
      case Layout(w) => w
      case LayerShell(l) => Some(l)
      case LockScreen(l) => l
      case _ => None
    }
  }

  datatype PopupGrab = PopupGrab(root: Id, hasKeyboardGrab: bool)

  datatype State = State(
    exitDialogOpen: bool,
    locked: bool,
    lockFocus: Option<Id>,           // the lock surface that would have focus
    screenshotUiOpen: bool,
    mruOpen: bool,
    hasActiveOutput: bool,
    layers: seq<Id>,                 // layer surfaces of the active output, in order
    info: Id -> LayerSurface,        // attributes of a layer surface, on whichever output
    layoutFocus: Option<Id>,         // the focused window's surface
    renderAboveTopLayer: bool,
    overviewOpen: bool,
    onDemandFocus: Option<Id>,
    popupGrab: Option<PopupGrab>,
    keyboardFocus: Focus)

  // --- Focus ------------------------------------------------------------------------------------

  predicate OnDemandGood(s: State, l: Id) {
    var i := s.info(l);
    i.alive && i.interactivity == OnDemand && i.mapped && !i.withinBackdrop
  }

  function CleanOnDemand(s: State): State {
    if s.onDemandFocus.Some? && !OnDemandGood(s, s.onDemandFocus.value)
    then s.(onDemandFocus := None) else s
  }

  predicate TakesExclusively(i: LayerSurface, layer: Layer) {
    i.layer == layer && i.interactivity == Exclusive && i.mapped && !i.withinBackdrop
  }

  function FirstExclusive(layers: seq<Id>, info: Id -> LayerSurface, layer: Layer): Option<Focus> {
    if layers == [] then None
    else if TakesExclusively(info(layers[0]), layer) then Some(LayerShell(layers[0]))
    else FirstExclusive(layers[1..], info, layer)
  }

  function FirstOnDemand(layers: seq<Id>, info: Id -> LayerSurface, layer: Layer, focus: Option<Id>): Option<Focus> {
    if layers == [] then None
    else if info(layers[0]).layer == layer && Some(layers[0]) == focus then Some(LayerShell(layers[0]))
    else FirstOnDemand(layers[1..], info, layer, focus)
  }

  function ExclusiveOn(s: State, layer: Layer): Option<Focus> {
    FirstExclusive(s.layers, s.info, layer)
  }

  function OnDemandOn(s: State, layer: Layer): Option<Focus> {
    FirstOnDemand(s.layers, s.info, layer, s.onDemandFocus)
  }

  function FocusOn(s: State, layer: Layer): Option<Focus> {
    OrElse(ExclusiveOn(s, layer), OnDemandOn(s, layer))
  }

  function GrabOn(s: State, layer: Layer): Option<Focus> {
    if s.popupGrab.None? then None
    else
      var root := s.popupGrab.value.root;
      if root in s.layers && s.info(root).CanReceiveKeyboardFocus() && s.info(root).layer == layer
      then Some(LayerShell(root)) else None
  }

  function LayoutFocus(s: State): Option<Focus> {
    if s.layoutFocus.Some? then Some(Layout(s.layoutFocus)) else None
  }

  function GrabFocus(s: State): Option<Focus> {
    var high := OrElse(GrabOn(s, Overlay), GrabOn(s, Top));
    if s.overviewOpen then high
    else OrElse(high, OrElse(GrabOn(s, Bottom), GrabOn(s, Background)))
  }

  function AboveTopFocus(s: State): Option<Focus> {
    OrElse(FocusOn(s, Overlay),
           OrElse(LayoutFocus(s), OrElse(FocusOn(s, Top), OrElse(FocusOn(s, Bottom), FocusOn(s, Background)))))
  }

  function BelowTopFocus(s: State): Option<Focus> {
    var high := OrElse(FocusOn(s, Overlay), FocusOn(s, Top));
    if high.Some? then high
    else if s.overviewOpen then Some(Overview)
    else
      OrElse(OrElse(OnDemandOn(s, Bottom), OnDemandOn(s, Background)),
             OrElse(LayoutFocus(s), OrElse(ExclusiveOn(s, Bottom), ExclusiveOn(s, Background))))
  }

  function OutputFocus(s: State): Focus {
    var f := OrElse(GrabFocus(s), if s.renderAboveTopLayer then AboveTopFocus(s) else BelowTopFocus(s));
    if f.Some? then f.value else Layout(None)
  }

  // The focus, once stale on-demand focus has been cleaned up.
  function ComputeFocus(s: State): Focus {
    if s.exitDialogOpen then ExitConfirmDialog
    else if s.locked then LockScreen(s.lockFocus)
    else if s.screenshotUiOpen then ScreenshotUi
    else if s.mruOpen then Mru
    else if s.hasActiveOutput then OutputFocus(s)
    else Layout(None)
  }

  function WithFocus(s: State, focus: Focus): State {
    if s.keyboardFocus == focus then s
    else
      var lost := s.popupGrab.Some? && s.popupGrab.value.hasKeyboardGrab
                  && Some(s.popupGrab.value.root) != focus.Surface();
      s.(popupGrab := if lost then None else s.popupGrab, keyboardFocus := focus)
  }

  function Update(s: State): State {
    var s1 := CleanOnDemand(s);
    WithFocus(s1, ComputeFocus(s1))
  }

  // --- Grabs ------------------------------------------------------------------------------------

  predicate Blocks(s: State, l: Id, layer: Layer) {
    var i := s.info(l);
    i.layer == layer && (i.interactivity == Exclusive || Some(l) == s.onDemandFocus) && i.mapped
  }

  predicate LayerBlocks(s: State, layer: Layer) {
    exists l :: l in s.layers && Blocks(s, l, layer)
  }

  // Whether the ladder lets a popup of this root surface have a grab.
  predicate MayGrab(s: State, root: Id) {
    if s.exitDialogOpen then false
    else if s.locked then Some(root) == s.lockFocus
    else if s.screenshotUiOpen then false
    else if !s.hasActiveOutput then false
    else if root in s.layers then !(s.info(root).mapped && s.info(root).withinBackdrop)
    else
      && !LayerBlocks(s, Overlay)
      && (s.renderAboveTopLayer || !LayerBlocks(s, Top))
      && Some(root) == s.layoutFocus
  }

  predicate KeyboardGoesAlong(s: State, root: Id, imeGrabbed: bool) {
    !imeGrabbed && (s.hasActiveOutput && root in s.layers ==> s.info(root).CanReceiveKeyboardFocus())
  }

  type Serial = nat

  // What the popup manager and the seat say: whether the popup may be grabbed at all, which grabs are
  // in effect, and the serials of this grab and of the one that it continues, if any.
  datatype SeatState = SeatState(
    popupOk: bool,
    imeGrabbed: bool,
    keyboardGrab: Option<Serial>,
    pointerGrab: Option<Serial>,
    serial: Serial,
    previous: Option<Serial>)
  {
    // A grab in effect that this one does not continue.
    predicate Mismatches(grab: Option<Serial>) {
      grab.Some? && !(grab.value == serial || previous.None? || previous.value == grab.value)
    }
  }

  function Grab(s: State, root: Id, seat: SeatState): State {
    var keyboard := KeyboardGoesAlong(s, root, seat.imeGrabbed);
    if !MayGrab(s, root) || !seat.popupOk then s
    else if (keyboard && seat.Mismatches(seat.keyboardGrab)) || seat.Mismatches(seat.pointerGrab) then s
    else s.(popupGrab := Some(PopupGrab(root, keyboard)))
  }

  ghost predicate Granted(s: State, root: Id, seat: SeatState) {
    && MayGrab(s, root) && seat.popupOk && !seat.Mismatches(seat.pointerGrab)
    && !(KeyboardGoesAlong(s, root, seat.imeGrabbed) && seat.Mismatches(seat.keyboardGrab))
  }

  // --- Lemmas -----------------------------------------------------------------------------------

  ghost predicate HasOnDemandOn(s: State, layer: Layer) {
    s.onDemandFocus.Some? && s.onDemandFocus.value in s.layers && s.info(s.onDemandFocus.value).layer == layer
  }

  lemma {:induction false} FirstOnDemandExactly(layers: seq<Id>, info: Id -> LayerSurface, layer: Layer,
                                                focus: Option<Id>)
    ensures FirstOnDemand(layers, info, layer, focus) ==
            if focus.Some? && focus.value in layers && info(focus.value).layer == layer
            then Some(LayerShell(focus.value)) else None
    decreases layers
  {
    if layers != [] {
      assert layers == [layers[0]] + layers[1..];
      FirstOnDemandExactly(layers[1..], info, layer, focus);
    }
  }

  lemma OnDemandOnExactly(s: State, layer: Layer)
    ensures OnDemandOn(s, layer) ==
            if HasOnDemandOn(s, layer) then Some(LayerShell(s.onDemandFocus.value)) else None
  {
    FirstOnDemandExactly(s.layers, s.info, layer, s.onDemandFocus);
  }

  ghost predicate HasExclusive(layers: seq<Id>, info: Id -> LayerSurface, layer: Layer) {
    exists l :: l in layers && TakesExclusively(info(l), layer)
  }

  lemma {:induction false} FirstExclusiveExactly(layers: seq<Id>, info: Id -> LayerSurface, layer: Layer)
    ensures var f := FirstExclusive(layers, info, layer);
            && (f.Some? <==> HasExclusive(layers, info, layer))
            && (f.Some? ==> f.value.LayerShell? && f.value.layerSurface in layers
                            && TakesExclusively(info(f.value.layerSurface), layer))
    decreases layers
  {
    if layers != [] && !TakesExclusively(info(layers[0]), layer) {
      FirstExclusiveExactly(layers[1..], info, layer);
      assert layers == [layers[0]] + layers[1..];
      if HasExclusive(layers, info, layer) {
        var l :| l in layers && TakesExclusively(info(l), layer);
        assert l in layers[1..];
      }
    }
  }

  // Once on-demand focus is cleaned up, a layer that does not stand in a window's way has no
  // surface to focus.
  lemma UnblockedLayerHasNoFocus(s: State, layer: Layer)
    requires !LayerBlocks(s, layer)
    ensures FocusOn(CleanOnDemand(s), layer) == None
  {
    var c := CleanOnDemand(s);
    OnDemandOnExactly(c, layer);
    FirstExclusiveExactly(s.layers, s.info, layer);
    if c.onDemandFocus.Some? && c.onDemandFocus.value in s.layers {
      assert !Blocks(s, c.onDemandFocus.value, layer);
    }
  }

  // On-demand focus that is still good, on a layer below the windows.
  ghost predicate OnDemandBelowWindows(s: State) {
    var c := CleanOnDemand(s);
    HasOnDemandOn(c, Bottom) || HasOnDemandOn(c, Background)
  }

  // When granting a keyboard grab and computing the focus agree.
  ghost predicate InAgreement(s: State, root: Id) {
    || s.locked
    || (!s.mruOpen &&
        if root in s.layers then s.info(root).layer in {Overlay, Top} || !s.overviewOpen
        else s.renderAboveTopLayer || (!s.overviewOpen && !OnDemandBelowWindows(s)))
  }

  // A monitor with the overview open does not render windows above the top layer.
  predicate OverviewStaysBelow(s: State) {
    s.overviewOpen ==> !s.renderAboveTopLayer
  }

  lemma GrabFocusExactly(s: State, root: Id)
    requires s.popupGrab == Some(PopupGrab(root, true))
    requires root in s.layers ==> s.info(root).CanReceiveKeyboardFocus()
    ensures GrabFocus(s) ==
            if root in s.layers && (s.info(root).layer in {Overlay, Top} || !s.overviewOpen)
            then Some(LayerShell(root)) else None
  {
    match s.info(root).layer
    case Overlay =>
    case Top =>
    case Bottom =>
    case Background =>
  }

  lemma FocusOnStaysOnLayer(s: State, layer: Layer)
    ensures var f := FocusOn(s, layer);
            f.Some? ==>
              && f.value.LayerShell? && f.value.layerSurface in s.layers
              && s.info(f.value.layerSurface).layer == layer
  {
    OnDemandOnExactly(s, layer);
    FirstExclusiveExactly(s.layers, s.info, layer);
  }

  lemma LayerRootAgrees(s: State, root: Id)
    requires OverviewStaysBelow(s) && s.popupGrab == Some(PopupGrab(root, true))
    requires root in s.layers && s.info(root).CanReceiveKeyboardFocus()
    ensures OutputFocus(s).Surface() == Some(root) <==> s.info(root).layer in {Overlay, Top} || !s.overviewOpen
  {
    GrabFocusExactly(s, root);
    FocusOnStaysOnLayer(s, Overlay);
    FocusOnStaysOnLayer(s, Top);
  }

  lemma WindowRootAgrees(s: State, root: Id)
    requires OverviewStaysBelow(s) && s.popupGrab == Some(PopupGrab(root, true))
    requires root !in s.layers && s.layoutFocus == Some(root)
    requires FocusOn(s, Overlay) == None && (s.renderAboveTopLayer || FocusOn(s, Top) == None)
    ensures OutputFocus(s).Surface() == Some(root) <==>
              s.renderAboveTopLayer || (!s.overviewOpen && !HasOnDemandOn(s, Bottom) && !HasOnDemandOn(s, Background))
  {
    GrabFocusExactly(s, root);
    OnDemandOnExactly(s, Bottom);
    OnDemandOnExactly(s, Background);
  }

  // --- Theorems ---------------------------------------------------------------------------------

  // A granted keyboard grab and the focus computed next agree exactly in these cases: the session
  // is locked; or the recent-windows switcher is closed and, for a layer surface, the overview is
  // closed or the surface is above the windows, and for a window, it is drawn above the top layer
  // or the overview is closed and no layer surface below the windows has on-demand focus.
  lemma GrabAgreesExactlyWhen(s: State, root: Id, seat: SeatState)
    requires OverviewStaysBelow(s)
    requires Granted(s, root, seat) && KeyboardGoesAlong(s, root, seat.imeGrabbed)
    ensures ComputeFocus(CleanOnDemand(Grab(s, root, seat))).Surface() == Some(root) <==> InAgreement(s, root)
  {
    var g := CleanOnDemand(Grab(s, root, seat));
    if !s.locked {
      if root in s.layers {
        LayerRootAgrees(g, root);
      } else {
        UnblockedLayerHasNoFocus(s, Overlay);
        if !s.renderAboveTopLayer { UnblockedLayerHasNoFocus(s, Top); }
        WindowRootAgrees(g, root);
      }
    }
  }

  // The grab in effect is none, or this one, or the one that this one continues.
  predicate Related(seat: SeatState, grab: Option<Serial>) {
    grab.None? || seat.previous.None? || grab == Some(seat.serial) || grab == seat.previous
  }

  // Whether the surface takes keyboard input: a window does, a layer surface as it asks for.
  predicate TakesKeys(s: State, root: Id) {
    s.hasActiveOutput && root in s.layers ==>
      s.info(root).interactivity == Exclusive || s.info(root).interactivity == OnDemand
  }

  // A grab is stored exactly if the ladder lets it and no unrelated grab is in effect, of the pointer or
  // of a keyboard that it would take; it takes the keyboard exactly from no input method and for a
  // surface that takes keys. Nothing else changes.
  lemma GrabStoredExactlyWhen(s: State, root: Id, seat: SeatState)
    ensures var g, keys := Grab(s, root, seat), !seat.imeGrabbed && TakesKeys(s, root);
            var stored := && MayGrab(s, root) && seat.popupOk && Related(seat, seat.pointerGrab)
                          && (keys ==> Related(seat, seat.keyboardGrab));
            g == s.(popupGrab := if stored then Some(PopupGrab(root, keys)) else s.popupGrab)
  {
  }

  // No popup grabs over a modal interface, over the lock screen of another surface, without an output, or
  // within the backdrop; in particular a refused root keeps whatever grab there is.
  lemma RefusedGrabs(s: State, root: Id, seat: SeatState)
    requires || s.exitDialogOpen
             || (s.locked && s.lockFocus != Some(root))
             || (!s.locked && (s.screenshotUiOpen || !s.hasActiveOutput))
             || (!s.locked && root in s.layers && s.info(root).mapped && s.info(root).withinBackdrop)
             || (!s.locked && root !in s.layers && s.layoutFocus != Some(root))
    ensures Grab(s, root, seat) == s
  {
  }

  // Such a grab: for the focused window, in the overview. The next update takes it away.
  lemma GrabInTheOverviewIsLost(root: Id, info: Id -> LayerSurface)
    ensures var s := InOverview(root, info);
            var seat := SeatState(true, false, None, None, 0, None);
            && OverviewStaysBelow(s) && Granted(s, root, seat)
            && Grab(s, root, seat).popupGrab == Some(PopupGrab(root, true))
            && !InAgreement(s, root)
            && Update(Grab(s, root, seat)).keyboardFocus == Overview
            && Update(Grab(s, root, seat)).popupGrab == None
  {
    var s := InOverview(root, info);
    var seat := SeatState(true, false, None, None, 0, None);
    assert !LayerBlocks(s, Overlay) && !LayerBlocks(s, Top);
    var g := Grab(s, root, seat);
    assert CleanOnDemand(g) == g;
    assert GrabFocus(g) == None && FocusOn(g, Overlay) == None && FocusOn(g, Top) == None;
  }

  function InOverview(root: Id, info: Id -> LayerSurface): State {
    State(false, false, None, false, false, true, [], info, Some(root), false, true, None, None, Layout(Some(root)))
  }

  // The grab then survives the next update exactly if they agree or the focus does not change.
  lemma GrabSurvivesExactlyWhen(s: State, root: Id, seat: SeatState)
    requires OverviewStaysBelow(s)
    requires Granted(s, root, seat) && KeyboardGoesAlong(s, root, seat.imeGrabbed)
    ensures var g := Grab(s, root, seat);
            Update(g).popupGrab == Some(PopupGrab(root, true)) <==>
            InAgreement(s, root) || ComputeFocus(CleanOnDemand(g)) == s.keyboardFocus
  {
    GrabAgreesExactlyWhen(s, root, seat);
  }

  ghost predicate LosesGrab(grab: PopupGrab, before: Focus, after: Focus) {
    grab.hasKeyboardGrab && after != before && after.Surface() != Some(grab.root)
  }

  lemma FocusMoves(s: State, focus: Focus)
    ensures var t := WithFocus(s, focus);
            && t.keyboardFocus == focus
            && (t.popupGrab == None <==>
                s.popupGrab.None? || LosesGrab(s.popupGrab.value, s.keyboardFocus, focus))
            && (t.popupGrab != None ==> t.popupGrab == s.popupGrab)
  {
  }

  // Any grab is lost exactly when it has the keyboard and the focus moves to another surface; a grab of the
  // pointer alone outlives every change of focus.
  lemma GrabLostExactlyWhen(s: State)
    requires s.popupGrab.Some?
    ensures var t := Update(s);
            && (t.popupGrab == None <==> LosesGrab(s.popupGrab.value, s.keyboardFocus, t.keyboardFocus))
            && (t.popupGrab != None ==> t.popupGrab == s.popupGrab)
  {
    FocusMoves(CleanOnDemand(s), ComputeFocus(CleanOnDemand(s)));
  }

  // A surface on the layer, if any, that the ladder would not refuse.
  ghost predicate Acceptable(s: State, f: Option<Focus>) {
    f.Some? ==>
      && f.value.LayerShell? && f.value.layerSurface in s.layers
      && !s.info(f.value.layerSurface).withinBackdrop
  }

  lemma LayerFocusAcceptable(s: State, layer: Layer)
    requires CleanOnDemand(s) == s
    ensures Acceptable(s, ExclusiveOn(s, layer)) && Acceptable(s, OnDemandOn(s, layer))
    ensures Acceptable(s, FocusOn(s, layer))
  {
    OnDemandOnExactly(s, layer);
    FirstExclusiveExactly(s.layers, s.info, layer);
  }

  lemma UnfocusedLayerDoesNotBlock(s: State, layer: Layer)
    requires layer in {Top, Overlay} && FocusOn(s, layer) == None
    requires forall l :: s.info(l).withinBackdrop ==> s.info(l).layer == Background
    ensures !LayerBlocks(s, layer)
  {
    OnDemandOnExactly(s, layer);
    FirstExclusiveExactly(s.layers, s.info, layer);
    forall l | l in s.layers ensures !Blocks(s, l, layer) {
      assert !TakesExclusively(s.info(l), layer);
    }
  }

  lemma OutputFocusKind(s: State)
    requires s.popupGrab == None && CleanOnDemand(s) == s
    ensures var f := OutputFocus(s);
            || f == Overview
            || Acceptable(s, Some(f))
            || (f == Layout(s.layoutFocus) && FocusOn(s, Overlay) == None
                && (s.renderAboveTopLayer || FocusOn(s, Top) == None))
  {
    LayerFocusAcceptable(s, Overlay);
    LayerFocusAcceptable(s, Top);
    LayerFocusAcceptable(s, Bottom);
    LayerFocusAcceptable(s, Background);
    assert GrabFocus(s) == None;
  }

  // The other way around: the surface that has the focus is not refused a grab.
  lemma FocusedRootMayGrab(s: State, root: Id)
    requires s.popupGrab == None && CleanOnDemand(s) == s
    requires forall l :: s.info(l).withinBackdrop ==> s.info(l).layer == Background
    requires s.layoutFocus.Some? ==> s.layoutFocus.value !in s.layers
    requires ComputeFocus(s).Surface() == Some(root)
    ensures MayGrab(s, root)
  {
    if !s.locked {
      OutputFocusKind(s);
      if OutputFocus(s) == Layout(s.layoutFocus) && s.layoutFocus == Some(root) {
        UnfocusedLayerDoesNotBlock(s, Overlay);
        if !s.renderAboveTopLayer { UnfocusedLayerDoesNotBlock(s, Top); }
      }
    }
  }

  lemma OldFocusDoesNotMatter(s: State, focus: Focus)
    ensures ComputeFocus(s.(keyboardFocus := focus)) == ComputeFocus(s)
  {
  }

  lemma WithFocusIsStable(c: State, t: State)
    requires t == WithFocus(c, ComputeFocus(c))
    ensures ComputeFocus(t) == ComputeFocus(c)
  {
    var f := ComputeFocus(c);
    if t.popupGrab != c.popupGrab {
      GrabThatDoesNotMatter(c, f, t);
    } else {
      OldFocusDoesNotMatter(c, t.keyboardFocus);
      assert t == c.(keyboardFocus := t.keyboardFocus);
    }
  }

  predicate Clean(s: State) {
    s.onDemandFocus.Some? ==> OnDemandGood(s, s.onDemandFocus.value)
  }

  lemma CleanIsKept(c: State, t: State)
    requires Clean(c) && t.info == c.info && t.onDemandFocus == c.onDemandFocus
    ensures CleanOnDemand(t) == t
  {
    if t.onDemandFocus.Some? {
      assert OnDemandGood(c, c.onDemandFocus.value);
      assert OnDemandGood(t, t.onDemandFocus.value);
    }
  }

  lemma CleanedUp(s: State)
    ensures Clean(CleanOnDemand(s))
  {
  }

  lemma FocusLeavesLayersAlone(c: State, focus: Focus)
    ensures var t := WithFocus(c, focus); t.info == c.info && t.onDemandFocus == c.onDemandFocus
  {
  }

  // Updating twice is updating once: losing its grab does not move the focus again.
  lemma UpdateIsIdempotent(s: State)
    ensures Update(Update(s)) == Update(s)
  {
    var c := CleanOnDemand(s);
    var f := ComputeFocus(c);
    CleanedUp(s);
    FocusLeavesLayersAlone(c, f);
    CleanIsKept(c, WithFocus(c, f));
    WithFocusIsStable(c, WithFocus(c, f));
  }

  lemma GrabThatDoesNotMatter(s: State, f: Focus, t: State)
    requires s.popupGrab.Some? && t == s.(popupGrab := None, keyboardFocus := t.keyboardFocus)
    requires f == ComputeFocus(s) && Some(s.popupGrab.value.root) != f.Surface()
    ensures ComputeFocus(t) == ComputeFocus(s)
  {
  }
}
