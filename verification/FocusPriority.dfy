/**
 Who has the keyboard, as a ranking. Each thing that can have the focus has a rank, which depends on
 whether windows are drawn above the top layer; the focus goes to what is present with the least rank.
 */
module FocusPriority {
  import opened Options
  import opened LayerShell
  import K = KeyboardFocus

  datatype Candidate =
    | ExitDialog
    | LockUi
    | ScreenshotUi
    | Switcher
    | NoOutput
    | GrabRoot
    | Exclusive(layer: Layer)
    | OnDemand(layer: Layer)
    | Window
    | Overview
    | Nobody

  // An exclusive surface, shown on the layer and not within the backdrop.
  predicate IsExclusive(s: K.State, l: K.Id, layer: Layer) {
    var i := s.info(l);
    i.layer == layer && i.interactivity == K.Exclusive && i.mapped && !i.withinBackdrop
  }

  // The surface that was given focus on demand, if it still may have it.
  predicate IsOnDemand(s: K.State, l: K.Id, layer: Layer) {
    var i := s.info(l);
    && s.onDemandFocus == Some(l)
    && i.layer == layer && i.interactivity == K.OnDemand && i.alive && i.mapped && !i.withinBackdrop
  }

  ghost predicate Present(s: K.State, c: Candidate) {
    match c
    case ExitDialog => s.exitDialogOpen
    case LockUi => s.locked
    case ScreenshotUi => s.screenshotUiOpen
    case Switcher => s.mruOpen
    case NoOutput => !s.hasActiveOutput
    case GrabRoot =>
      s.popupGrab.Some? &&
      (var root := s.popupGrab.value.root;
       && root in s.layers && s.info(root).interactivity != K.NoKeyboard
       && (s.overviewOpen ==> s.info(root).layer == Overlay || s.info(root).layer == Top))
    case Exclusive(layer) => exists l :: l in s.layers && IsExclusive(s, l, layer)
    case OnDemand(layer) => exists l :: l in s.layers && IsOnDemand(s, l, layer)
    case Window => s.layoutFocus.Some?
    case Overview => s.overviewOpen && !s.renderAboveTopLayer
    case Nobody => true
  }

  // Modal interfaces first, then grabs, then layers from the top with exclusive focus preferred.
  // Windows come after the overlay layer if they are drawn above the top layer. Otherwise they come
  // after on-demand focus below them, but before exclusive focus there.
  function Rank(above: bool, c: Candidate): nat {
    match c
    case ExitDialog => 0
    case LockUi => 1
    case ScreenshotUi => 2
    case Switcher => 3
    case NoOutput => 4
    case GrabRoot => 5
    case Exclusive(Overlay) => 6
    case OnDemand(Overlay) => 7
    case Exclusive(Top) => if above then 9 else 8
    case OnDemand(Top) => if above then 10 else 9
    case Overview => 10
    case OnDemand(Bottom) => if above then 12 else 11
    case OnDemand(Background) => if above then 14 else 12
    case Window => if above then 8 else 13
    case Exclusive(Bottom) => if above then 11 else 14
    case Exclusive(Background) => if above then 13 else 15
    case Nobody => 16
  }

  // What having the focus means.
  ghost predicate Has(s: K.State, c: Candidate, f: K.Focus) {
    match c
    case ExitDialog => f == K.ExitConfirmDialog
    case LockUi => f == K.LockScreen(s.lockFocus)
    case ScreenshotUi => f == K.ScreenshotUi
    case Switcher => f == K.Mru
    case NoOutput => f == K.Layout(None)
    case GrabRoot => s.popupGrab.Some? && f == K.LayerShell(s.popupGrab.value.root)
    case Exclusive(layer) => exists i :: IsFirstExclusive(s, layer, i) && f == K.LayerShell(s.layers[i])
    case OnDemand(layer) => s.onDemandFocus.Some? && f == K.LayerShell(s.onDemandFocus.value)
    case Window => f == K.Layout(s.layoutFocus)
    case Overview => f == K.Overview
    case Nobody => f == K.Layout(None)
  }

  ghost predicate IsFirstExclusive(s: K.State, layer: Layer, i: int) {
    && 0 <= i < |s.layers| && IsExclusive(s, s.layers[i], layer)
    && forall j :: 0 <= j < i ==> !IsExclusive(s, s.layers[j], layer)
  }

  // --- Each search ------------------------------------------------------------------------------

  lemma {:induction false} FirstIsFirst(s: K.State, k: nat, layer: Layer)
    requires k <= |s.layers| && forall j :: 0 <= j < k ==> !IsExclusive(s, s.layers[j], layer)
    ensures var f := K.FirstExclusive(s.layers[k..], s.info, layer);
            && (f.Some? ==> Has(s, Exclusive(layer), f.value))
            && (f.None? ==> forall j :: 0 <= j < |s.layers| ==> !IsExclusive(s, s.layers[j], layer))
    decreases |s.layers| - k
  {
    if k < |s.layers| {
      assert s.layers[k..][1..] == s.layers[k + 1..] && s.layers[k..][0] == s.layers[k];
      if IsExclusive(s, s.layers[k], layer) {
        assert IsFirstExclusive(s, layer, k);
      } else {
        FirstIsFirst(s, k + 1, layer);
      }
    }
  }

  lemma ExclusiveFound(s: K.State, layer: Layer)
    ensures var f := K.ExclusiveOn(s, layer);
            (f.Some? <==> Present(s, Exclusive(layer))) && (f.Some? ==> Has(s, Exclusive(layer), f.value))
  {
    assert s.layers[0..] == s.layers;
    FirstIsFirst(s, 0, layer);
    if Present(s, Exclusive(layer)) {
      var l :| l in s.layers && IsExclusive(s, l, layer);
      var j :| 0 <= j < |s.layers| && s.layers[j] == l;
    }
    if K.ExclusiveOn(s, layer).Some? {
      var i :| IsFirstExclusive(s, layer, i);
      assert s.layers[i] in s.layers;
    }
  }

  lemma OnDemandFound(s: K.State, layer: Layer)
    ensures var c := K.CleanOnDemand(s);
            K.OnDemandOn(c, layer) ==
            if Present(s, OnDemand(layer)) then Some(K.LayerShell(s.onDemandFocus.value)) else None
  {
    var c := K.CleanOnDemand(s);
    K.OnDemandOnExactly(c, layer);
    if K.HasOnDemandOn(c, layer) {
      assert IsOnDemand(s, s.onDemandFocus.value, layer);
    }
  }

  lemma GrabFound(s: K.State)
    ensures K.GrabFocus(s) ==
            if Present(s, GrabRoot) then Some(K.LayerShell(s.popupGrab.value.root)) else None
  {
    if s.popupGrab.Some? && s.popupGrab.value.root in s.layers {
      match s.info(s.popupGrab.value.root).layer
      case Overlay =>
      case Top =>
      case Bottom =>
      case Background =>
    }
  }

  // What a search for one candidate finds.
  ghost predicate Finds(s: K.State, c: Candidate, f: Option<K.Focus>) {
    (f.Some? <==> Present(s, c)) && (f.Some? ==> Has(s, c, f.value))
  }

  lemma LayerFound(s: K.State, layer: Layer)
    ensures var c := K.CleanOnDemand(s);
            && Finds(s, Exclusive(layer), K.ExclusiveOn(c, layer))
            && Finds(s, OnDemand(layer), K.OnDemandOn(c, layer))
  {
    ExclusiveFound(s, layer);
    OnDemandFound(s, layer);
  }

  // --- The whole chain --------------------------------------------------------------------------

  // What the searches find on each layer, and the focused window.
  datatype Found = Found(
    exOverlay: Option<K.Focus>, odOverlay: Option<K.Focus>,
    exTop: Option<K.Focus>, odTop: Option<K.Focus>,
    exBottom: Option<K.Focus>, odBottom: Option<K.Focus>,
    exBackground: Option<K.Focus>, odBackground: Option<K.Focus>,
    window: Option<K.Focus>)

  function Above(r: Found): Option<K.Focus> {
    OrElse(OrElse(r.exOverlay, r.odOverlay),
      OrElse(r.window,
        OrElse(OrElse(r.exTop, r.odTop),
          OrElse(OrElse(r.exBottom, r.odBottom), OrElse(r.exBackground, r.odBackground)))))
  }

  function Below(r: Found, overview: bool): Option<K.Focus> {
    var high := OrElse(OrElse(r.exOverlay, r.odOverlay), OrElse(r.exTop, r.odTop));
    if high.Some? then high
    else if overview then Some(K.Overview)
    else
      OrElse(OrElse(r.odBottom, r.odBackground), OrElse(r.window, OrElse(r.exBottom, r.exBackground)))
  }

  ghost predicate Searches(s: K.State, r: Found) {
    && Finds(s, Exclusive(Overlay), r.exOverlay) && Finds(s, OnDemand(Overlay), r.odOverlay)
    && Finds(s, Exclusive(Top), r.exTop) && Finds(s, OnDemand(Top), r.odTop)
    && Finds(s, Exclusive(Bottom), r.exBottom) && Finds(s, OnDemand(Bottom), r.odBottom)
    && Finds(s, Exclusive(Background), r.exBackground) && Finds(s, OnDemand(Background), r.odBackground)
    && Finds(s, Window, r.window)
  }

  // Nothing else that is present ranks before it.
  ghost predicate IsBest(s: K.State, c: Candidate) {
    Present(s, c) && forall d :: Present(s, d) && d != c ==>
      Rank(s.renderAboveTopLayer, c) < Rank(s.renderAboveTopLayer, d)
  }

  lemma BetterAreAbsent(s: K.State, c: Candidate)
    requires IsBest(s, c)
    ensures forall d :: Rank(s.renderAboveTopLayer, d) < Rank(s.renderAboveTopLayer, c) ==> !Present(s, d)
  {
  }

  lemma AboveIsBest(s: K.State, r: Found, c: Candidate)
    requires Searches(s, r) && s.renderAboveTopLayer && IsBest(s, c) && Rank(true, c) > 5
    ensures var f := Above(r); Has(s, c, if f.Some? then f.value else K.Layout(None))
  {
    BetterAreAbsent(s, c);
    match c
    case Exclusive(Overlay) =>
    case OnDemand(Overlay) =>
    case Window =>
    case Exclusive(Top) =>
    case OnDemand(Top) =>
    case Exclusive(Bottom) =>
    case OnDemand(Bottom) =>
    case Exclusive(Background) =>
    case OnDemand(Background) =>
    case Overview =>
    case Nobody =>
  }

  lemma BelowIsBest(s: K.State, r: Found, c: Candidate)
    requires Searches(s, r) && !s.renderAboveTopLayer && IsBest(s, c) && Rank(false, c) > 5
    ensures var f := Below(r, s.overviewOpen); Has(s, c, if f.Some? then f.value else K.Layout(None))
  {
    BetterAreAbsent(s, c);
    assert s.overviewOpen <==> Present(s, Overview);
    match c
    case Exclusive(Overlay) =>
    case OnDemand(Overlay) =>
    case Exclusive(Top) =>
    case OnDemand(Top) =>
    case Overview =>
    case OnDemand(Bottom) =>
    case OnDemand(Background) =>
    case Window =>
    case Exclusive(Bottom) =>
    case Exclusive(Background) =>
    case Nobody =>
  }

  function FoundIn(t: K.State): Found {
    Found(K.ExclusiveOn(t, Overlay), K.OnDemandOn(t, Overlay), K.ExclusiveOn(t, Top), K.OnDemandOn(t, Top),
          K.ExclusiveOn(t, Bottom), K.OnDemandOn(t, Bottom), K.ExclusiveOn(t, Background),
          K.OnDemandOn(t, Background), K.LayoutFocus(t))
  }

  lemma ChainIs(t: K.State)
    ensures K.AboveTopFocus(t) == Above(FoundIn(t)) && K.BelowTopFocus(t) == Below(FoundIn(t), t.overviewOpen)
  {
  }

  lemma WindowFound(s: K.State, t: K.State)
    requires t.layoutFocus == s.layoutFocus
    ensures Finds(s, Window, K.LayoutFocus(t))
  {
  }

  lemma SearchesFind(s: K.State, t: K.State, r: Found)
    requires t == K.CleanOnDemand(s) && r == FoundIn(t)
    ensures Searches(s, r)
  {
    assert Finds(s, Exclusive(Overlay), r.exOverlay) && Finds(s, OnDemand(Overlay), r.odOverlay) by {
      LayerFound(s, Overlay);
    }
    assert Finds(s, Exclusive(Top), r.exTop) && Finds(s, OnDemand(Top), r.odTop) by {
      LayerFound(s, Top);
    }
    assert Finds(s, Exclusive(Bottom), r.exBottom) && Finds(s, OnDemand(Bottom), r.odBottom) by {
      LayerFound(s, Bottom);
    }
    assert Finds(s, Exclusive(Background), r.exBackground) && Finds(s, OnDemand(Background), r.odBackground) by {
      LayerFound(s, Background);
    }
    assert Finds(s, Window, r.window) by { WindowFound(s, t); }
  }

  // The grab, or else the chain.
  function Chosen(grab: Option<K.Focus>, r: Found, above: bool, overview: bool): K.Focus {
    var f := OrElse(grab, if above then Above(r) else Below(r, overview));
    if f.Some? then f.value else K.Layout(None)
  }

  lemma OutputFocusIs(t: K.State)
    ensures K.OutputFocus(t) == Chosen(K.GrabFocus(t), FoundIn(t), t.renderAboveTopLayer, t.overviewOpen)
  {
    ChainIs(t);
  }

  lemma ChosenIsBest(s: K.State, grab: Option<K.Focus>, r: Found, c: Candidate)
    requires IsBest(s, c) && Rank(s.renderAboveTopLayer, c) > 4 && Searches(s, r)
    requires grab == if Present(s, GrabRoot) then Some(K.LayerShell(s.popupGrab.value.root)) else None
    ensures Has(s, c, Chosen(grab, r, s.renderAboveTopLayer, s.overviewOpen))
  {
    if c != GrabRoot {
      assert !Present(s, GrabRoot) by {
        BetterAreAbsent(s, c);
        assert Rank(s.renderAboveTopLayer, GrabRoot) == 5;
      }
      if s.renderAboveTopLayer { AboveIsBest(s, r, c); } else { BelowIsBest(s, r, c); }
    }
  }

  lemma SameGrab(s: K.State, t: K.State)
    requires t == K.CleanOnDemand(s)
    ensures K.GrabFocus(t) == K.GrabFocus(s)
    ensures t.renderAboveTopLayer == s.renderAboveTopLayer && t.overviewOpen == s.overviewOpen
  {
  }

  lemma OutputFocusIsBest(s: K.State, t: K.State, r: Found, c: Candidate)
    requires IsBest(s, c) && Rank(s.renderAboveTopLayer, c) > 4 && t == K.CleanOnDemand(s) && r == FoundIn(t)
    ensures Has(s, c, K.OutputFocus(t))
  {
    var grab := K.GrabFocus(t);
    var f := K.OutputFocus(t);
    assert f == Chosen(grab, r, s.renderAboveTopLayer, s.overviewOpen) by {
      OutputFocusIs(t);
      SameGrab(s, t);
    }
    assert grab == if Present(s, GrabRoot) then Some(K.LayerShell(s.popupGrab.value.root)) else None by {
      GrabFound(s);
      SameGrab(s, t);
    }
    assert Searches(s, r) by { SearchesFind(s, t, r); }
    ChosenIsBest(s, grab, r, c);
  }

  // The focus goes to what is present with the least rank; of several exclusive surfaces on a layer,
  // to the first.
  lemma FocusExactly(s: K.State, c: Candidate)
    requires IsBest(s, c)
    ensures Has(s, c, K.Update(s).keyboardFocus)
  {
    var t := K.CleanOnDemand(s);
    BetterAreAbsent(s, c);
    ModalFocus(s, t, c);
    if Rank(s.renderAboveTopLayer, c) > 4 { OutputFocusIsBest(s, t, FoundIn(t), c); }
    assert K.Update(s).keyboardFocus == K.ComputeFocus(t);
  }

  lemma ModalFocus(s: K.State, t: K.State, c: Candidate)
    requires IsBest(s, c) && t == K.CleanOnDemand(s)
    ensures if Rank(s.renderAboveTopLayer, c) > 4 then K.ComputeFocus(t) == K.OutputFocus(t)
            else Has(s, c, K.ComputeFocus(t))
  {
    BetterAreAbsent(s, c);
    var a := s.renderAboveTopLayer;
    assert Rank(a, ExitDialog) == 0 && Rank(a, LockUi) == 1 && Rank(a, ScreenshotUi) == 2 && Rank(a, Switcher) == 3
           && Rank(a, NoOutput) == 4;
    assert Present(s, ExitDialog) == s.exitDialogOpen && Present(s, LockUi) == s.locked
           && Present(s, ScreenshotUi) == s.screenshotUiOpen && Present(s, Switcher) == s.mruOpen
           && Present(s, NoOutput) == !s.hasActiveOutput;
  }

  // --- There always is a best candidate ---------------------------------------------------------

  const ALL: seq<Candidate> :=
    [ExitDialog, LockUi, ScreenshotUi, Switcher, NoOutput, GrabRoot, Exclusive(Overlay), OnDemand(Overlay),
     Exclusive(Top), OnDemand(Top), Overview, OnDemand(Bottom), OnDemand(Background), Window,
     Exclusive(Bottom), Exclusive(Background), Nobody]

  function Position(c: Candidate): (i: nat)
    ensures i < |ALL| && ALL[i] == c
  {
    Rank(false, c)
  }

  lemma RanksDiffer(above: bool, c: Candidate, d: Candidate)
    requires c != d && Rank(above, c) == Rank(above, d)
    ensures above && (c == Overview || d == Overview)
  {
  }

  lemma {:induction false} BestAmong(s: K.State, k: nat) returns (c: Candidate)
    requires k <= |ALL|
    ensures Present(s, c)
    ensures forall i :: 0 <= i < k && Present(s, ALL[i]) ==>
              Rank(s.renderAboveTopLayer, c) <= Rank(s.renderAboveTopLayer, ALL[i])
    decreases k
  {
    c := Nobody;
    if k > 0 {
      c := BestAmong(s, k - 1);
      if Present(s, ALL[k - 1]) && Rank(s.renderAboveTopLayer, ALL[k - 1]) < Rank(s.renderAboveTopLayer, c) {
        c := ALL[k - 1];
      }
    }
  }

  lemma SomethingIsBest(s: K.State) returns (c: Candidate)
    ensures IsBest(s, c)
  {
    c := BestAmong(s, |ALL|);
    forall d | Present(s, d) && d != c
      ensures Rank(s.renderAboveTopLayer, c) < Rank(s.renderAboveTopLayer, d)
    {
      assert ALL[Position(d)] == d;
      if Rank(s.renderAboveTopLayer, c) == Rank(s.renderAboveTopLayer, d) {
        RanksDiffer(s.renderAboveTopLayer, c, d);
      }
    }
  }
}
