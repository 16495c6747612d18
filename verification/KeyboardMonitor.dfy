/**
 The accessibility keyboard monitor: which key events are withheld from the session while
 assistive clients grab keys, change their grabs and disappear at any moment.
 */
module KeyboardMonitor {
  type Keysym = nat
  type ClientName = nat

  datatype Client = Client(watched: bool, grabbed: bool, modifiers: set<Keysym>, keystrokes: seq<(Keysym, nat)>)

  datatype Data = Data(
    clients: map<ClientName, Client>,
    grabbedMods: set<Keysym>,
    lastPress: map<Keysym, nat>,
    suppressed: set<Keysym>)

  datatype Verdict = Pass | ModifierFirstPress | Block

  datatype Key = Key(released: bool, keysym: Keysym, mods: nat, time: nat)

  const NO_GRABS := Client(false, false, {}, [])

  function ClientOrDefault(d: Data, name: ClientName): Client {
    if name in d.clients then d.clients[name] else NO_GRABS
  }

  function RebuiltMods(clients: map<ClientName, Client>): set<Keysym> {
    set name, k | name in clients && k in clients[name].modifiers :: k
  }

  predicate ShouldGrab(c: Client, suppressed: set<Keysym>, mods: nat, keysym: Keysym) {
    || c.grabbed
    || (exists m :: m in c.modifiers && (m == keysym || m in suppressed))
    || (keysym, mods) in c.keystrokes
  }

  predicate AnyGrabs(d: Data, mods: nat, keysym: Keysym) {
    exists name :: name in d.clients && ShouldGrab(d.clients[name], d.suppressed, mods, keysym)
  }

  function LastPress(d: Data, keysym: Keysym): nat {
    if keysym in d.lastPress then d.lastPress[keysym] else 0
  }

  function Blocked(d: Data, keysym: Keysym): Verdict {
    if keysym in d.grabbedMods then ModifierFirstPress else Block
  }

  function Release(d: Data, keysym: Keysym): (Data, Verdict) {
    if keysym in d.suppressed then (d.(suppressed := d.suppressed - {keysym}), Blocked(d, keysym)) else (d, Pass)
  }

  function Press(d: Data, key: Key, repeatDelay: nat): (Data, Verdict) {
    var isMod := key.keysym in d.grabbedMods;
    var d1 := if isMod then d.(lastPress := d.lastPress[key.keysym := key.time]) else d;
    // A grabbed modifier pressed twice is handled as usual.
    if isMod && key.time <= LastPress(d, key.keysym) + repeatDelay then (d1, Pass)
    else if key.keysym in d.suppressed then (d1, Blocked(d, key.keysym))
    else if AnyGrabs(d, key.mods, key.keysym) then
      (d1.(suppressed := d.suppressed + {key.keysym}), Blocked(d, key.keysym))
    else (d1, Pass)
  }

  function Process(d: Data, key: Key, repeatDelay: nat): (Data, Verdict) {
    if key.released then Release(d, key.keysym) else Press(d, key, repeatDelay)
  }

  datatype Event =
    | GrabKeyboard(name: ClientName)
    | UngrabKeyboard(name: ClientName)
    | WatchKeyboard(name: ClientName)
    | UnwatchKeyboard(name: ClientName)
    | SetKeyGrabs(name: ClientName, modifiers: set<Keysym>, keystrokes: seq<(Keysym, nat)>)
    | Disappeared(name: ClientName)
    | MonitorBroke
    | KeyEvent(key: Key)

  function Rebuilt(d: Data): Data {
    d.(grabbedMods := RebuiltMods(d.clients))
  }

  function Apply(d: Data, e: Event, repeatDelay: nat): Data {
    match e
    case GrabKeyboard(n) => d.(clients := d.clients[n := ClientOrDefault(d, n).(grabbed := true)])
    case UngrabKeyboard(n) =>
      if n in d.clients then d.(clients := d.clients[n := d.clients[n].(grabbed := false)]) else d
    case WatchKeyboard(n) => d.(clients := d.clients[n := ClientOrDefault(d, n).(watched := true)])
    case UnwatchKeyboard(n) =>
      if n in d.clients then d.(clients := d.clients[n := d.clients[n].(watched := false)]) else d
    case SetKeyGrabs(n, modifiers, keystrokes) =>
      Rebuilt(d.(clients := d.clients[n := ClientOrDefault(d, n).(modifiers := modifiers, keystrokes := keystrokes)]))
    case Disappeared(n) => Rebuilt(d.(clients := d.clients - {n}))
    case MonitorBroke => Rebuilt(d.(clients := map[]))
    case KeyEvent(key) => Process(d, key, repeatDelay).0
  }

  const START := Data(map[], {}, map[], {})

  // The state after a run.
  function After(es: seq<Event>, repeatDelay: nat): Data {
    if es == [] then START else Apply(After(es[..|es| - 1], repeatDelay), es[|es| - 1], repeatDelay)
  }

  // --- Which releases are blocked -----------------------------------------------------------------

  predicate IsPress(e: Event, k: Keysym) {
    e.KeyEvent? && !e.key.released && e.key.keysym == k
  }

  predicate IsRelease(e: Event, k: Keysym) {
    e.KeyEvent? && e.key.released && e.key.keysym == k
  }

  // The monitor withheld the i-th event of the run.
  predicate WasBlocked(es: seq<Event>, i: int, repeatDelay: nat)
    requires 0 <= i < |es|
  {
    es[i].KeyEvent? && Process(After(es[..i], repeatDelay), es[i].key, repeatDelay).1 != Pass
  }

  // The j-th event is a blocked press of `k`, and `k` has not been released since.
  predicate HeldSince(es: seq<Event>, j: int, k: Keysym, repeatDelay: nat) {
    && 0 <= j < |es| && IsPress(es[j], k) && WasBlocked(es, j, repeatDelay)
    && forall i :: j < i < |es| ==> !IsRelease(es[i], k)
  }

  lemma HeldOnward(es: seq<Event>, j: int, k: Keysym, repeatDelay: nat)
    requires es != [] && 0 <= j < |es| - 1
    ensures HeldSince(es, j, k, repeatDelay) <==>
              HeldSince(es[..|es| - 1], j, k, repeatDelay) && !IsRelease(es[|es| - 1], k)
  {
    var n := |es| - 1;
    assert es[..n][..j] == es[..j];
    assert forall i :: 0 <= i < n ==> es[..n][i] == es[i];
  }

  lemma SuppressedStep(d: Data, e: Event, k: Keysym, repeatDelay: nat)
    ensures k in Apply(d, e, repeatDelay).suppressed <==>
              || (k in d.suppressed && !IsRelease(e, k))
              || (IsPress(e, k) && Process(d, e.key, repeatDelay).1 != Pass)
  {
  }

  // The suppressed keys are exactly those with a blocked press that no release has followed.
  lemma {:induction false} SuppressedExactly(es: seq<Event>, k: Keysym, repeatDelay: nat)
    ensures k in After(es, repeatDelay).suppressed <==> exists j :: HeldSince(es, j, k, repeatDelay)
    decreases es
  {
    if es != [] {
      var n := |es| - 1;
      SuppressedExactly(es[..n], k, repeatDelay);
      SuppressedStep(After(es[..n], repeatDelay), es[n], k, repeatDelay);
      assert HeldSince(es, n, k, repeatDelay) <==> IsPress(es[n], k) && WasBlocked(es, n, repeatDelay);
      forall j | 0 <= j < n
        ensures HeldSince(es, j, k, repeatDelay) <==> HeldSince(es[..n], j, k, repeatDelay) && !IsRelease(es[n], k)
      {
        HeldOnward(es, j, k, repeatDelay);
      }
    }
  }

  // Whatever the clients do meanwhile, a release is blocked exactly if a press of the same key was
  // blocked since that key's previous release.
  lemma ReleaseBlockedExactlyWhen(es: seq<Event>, i: int, repeatDelay: nat)
    requires 0 <= i < |es| && es[i].KeyEvent? && es[i].key.released
    ensures var k := es[i].key.keysym;
            WasBlocked(es, i, repeatDelay) <==>
              exists j :: 0 <= j < i && IsPress(es[j], k) && WasBlocked(es, j, repeatDelay)
                          && forall m :: j < m < i ==> !IsRelease(es[m], k)
  {
    var k := es[i].key.keysym;
    SuppressedExactly(es[..i], k, repeatDelay);
    forall j | 0 <= j < i
      ensures HeldSince(es[..i], j, k, repeatDelay) <==>
                IsPress(es[j], k) && WasBlocked(es, j, repeatDelay) && forall m :: j < m < i ==> !IsRelease(es[m], k)
    {
      assert es[..i][..j] == es[..j];
      assert forall m :: 0 <= m < i ==> es[..i][m] == es[m];
    }
  }

  // So when presses and releases of a key alternate, a release shares the fate of its press.
  lemma ReleaseFollowsItsPress(es: seq<Event>, j: int, i: int, k: Keysym, repeatDelay: nat)
    requires 0 <= j < i < |es| && IsPress(es[j], k) && IsRelease(es[i], k)
    requires forall m :: j < m < i ==> !IsPress(es[m], k) && !IsRelease(es[m], k)
    requires forall m :: 0 <= m < j && IsPress(es[m], k) ==> exists r :: m < r < j && IsRelease(es[r], k)
    ensures WasBlocked(es, i, repeatDelay) <==> WasBlocked(es, j, repeatDelay)
  {
    ReleaseBlockedExactlyWhen(es, i, repeatDelay);
  }

  // --- Grabbed modifiers ----------------------------------------------------------------------------

  ghost predicate ModsInStep(d: Data) {
    d.grabbedMods == RebuiltMods(d.clients)
  }

  lemma ModsStayInStep(d: Data, e: Event, repeatDelay: nat)
    requires ModsInStep(d)
    ensures ModsInStep(Apply(d, e, repeatDelay))
  {
    var d' := Apply(d, e, repeatDelay);
    if !e.SetKeyGrabs? && !e.Disappeared? && !e.MonitorBroke? {
      SameModifiers(d.clients, d'.clients);
    }
  }

  lemma {:induction false} ModsAlwaysInStep(es: seq<Event>, repeatDelay: nat)
    ensures ModsInStep(After(es, repeatDelay))
    decreases es
  {
    if es != [] {
      ModsAlwaysInStep(es[..|es| - 1], repeatDelay);
      ModsStayInStep(After(es[..|es| - 1], repeatDelay), es[|es| - 1], repeatDelay);
    }
  }

  lemma SameModifiers(before: map<ClientName, Client>, after: map<ClientName, Client>)
    requires forall n :: n in before ==> n in after && after[n].modifiers == before[n].modifiers
    requires forall n :: n in after && n !in before ==> after[n].modifiers == {}
    ensures RebuiltMods(after) == RebuiltMods(before)
  {
    forall k | k in RebuiltMods(after) ensures k in RebuiltMods(before) {
      var n :| n in after && k in after[n].modifiers;
      assert n in before && k in before[n].modifiers;
    }
    forall k | k in RebuiltMods(before) ensures k in RebuiltMods(after) {
      var n :| n in before && k in before[n].modifiers;
      assert n in after && k in after[n].modifiers;
    }
  }

  // After any run, a modifier is grabbed exactly while some client lists it; its press then passes
  // exactly if it follows the previous one within the repeat delay.
  lemma {:induction false} ModifierPress(es: seq<Event>, key: Key, repeatDelay: nat)
    requires !key.released
    ensures var d := After(es, repeatDelay);
            var isMod := exists n :: n in d.clients && key.keysym in d.clients[n].modifiers;
            && (key.keysym in d.grabbedMods <==> isMod)
            && (isMod ==>
                  Process(d, key, repeatDelay).1 ==
                  if key.time <= LastPress(d, key.keysym) + repeatDelay then Pass else ModifierFirstPress)
  {
    ModsAlwaysInStep(es, repeatDelay);
    var d := After(es, repeatDelay);
    if n :| n in d.clients && key.keysym in d.clients[n].modifiers {
      assert key.keysym in RebuiltMods(d.clients);
      assert ShouldGrab(d.clients[n], d.suppressed, key.mods, key.keysym);
    }
  }

  // --- Which presses are blocked ------------------------------------------------------------------

  // The client grabs everything, or one of its modifiers is pressed or withheld and still down, or
  // it lists the keystroke.
  ghost predicate Wants(c: Client, es: seq<Event>, key: Key, repeatDelay: nat) {
    || c.grabbed
    || (exists m :: m in c.modifiers && (m == key.keysym || StillHeld(es, m, repeatDelay)))
    || (key.keysym, key.mods) in c.keystrokes
  }

  ghost predicate StillHeld(es: seq<Event>, k: Keysym, repeatDelay: nat) {
    exists j :: HeldSince(es, j, k, repeatDelay)
  }

  ghost predicate Listed(clients: map<ClientName, Client>, k: Keysym) {
    exists n :: n in clients && k in clients[n].modifiers
  }

  lemma {:induction false} WantsExactly(c: Client, es: seq<Event>, key: Key, repeatDelay: nat)
    ensures ShouldGrab(c, After(es, repeatDelay).suppressed, key.mods, key.keysym) <==> Wants(c, es, key, repeatDelay)
  {
    forall m ensures m in After(es, repeatDelay).suppressed <==> StillHeld(es, m, repeatDelay) {
      SuppressedExactly(es, m, repeatDelay);
    }
  }

  // After any run, a press is blocked exactly if it is not the second one of a grabbed modifier
  // within the repeat delay, and the key is withheld from an earlier press or some client wants it.
  lemma {:induction false} PressBlockedExactlyWhen(es: seq<Event>, key: Key, repeatDelay: nat)
    requires !key.released
    ensures var d := After(es, repeatDelay);
            Process(d, key, repeatDelay).1 != Pass <==>
              && !(Listed(d.clients, key.keysym) && key.time <= LastPress(d, key.keysym) + repeatDelay)
              && (|| StillHeld(es, key.keysym, repeatDelay)
                  || exists n :: n in d.clients && Wants(d.clients[n], es, key, repeatDelay))
  {
    var d := After(es, repeatDelay);
    ModsAlwaysInStep(es, repeatDelay);
    assert key.keysym in d.grabbedMods <==> Listed(d.clients, key.keysym);
    SuppressedExactly(es, key.keysym, repeatDelay);
    forall n | n in d.clients
      ensures ShouldGrab(d.clients[n], d.suppressed, key.mods, key.keysym) <==>
              Wants(d.clients[n], es, key, repeatDelay)
    {
      WantsExactly(d.clients[n], es, key, repeatDelay);
    }
  }

  // --- The monitor in place -------------------------------------------------------------------------

  class Monitor {
    var clients: map<ClientName, Client>
    var grabbedMods: set<Keysym>
    var lastPress: map<Keysym, nat>
    var suppressed: set<Keysym>

    ghost function View(): Data
      reads this
    {
      Data(clients, grabbedMods, lastPress, suppressed)
    }

    // The grabbed modifiers are the union of the clients'.
    ghost predicate Valid()
      reads this
    {
      ModsInStep(View())
    }

    constructor ()
      ensures View() == START && Valid()
    {
      clients, grabbedMods, lastPress, suppressed := map[], {}, map[], {};
    }

    method RebuildGrabbedMods()
      modifies this`grabbedMods
      ensures View() == Rebuilt(old(View())) && Valid()
    {
      grabbedMods := {};
      var todo := clients.Keys;
      while todo != {}
        invariant todo <= clients.Keys
        invariant grabbedMods == set name, k | name in clients.Keys - todo && k in clients[name].modifiers :: k
        decreases todo
      {
        var name :| name in todo;
        grabbedMods := grabbedMods + clients[name].modifiers;
        todo := todo - {name};
      }
    }

    method ClientShouldGrab(c: Client, mods: nat, keysym: Keysym) returns (grab: bool)
      ensures grab <==> ShouldGrab(c, suppressed, mods, keysym)
    {
      if c.grabbed {
        return true;
      }
      var todo := c.modifiers;
      while todo != {}
        invariant todo <= c.modifiers
        invariant forall m :: m in c.modifiers && m !in todo ==> m != keysym && m !in suppressed
        decreases todo
      {
        var m :| m in todo;
        if m == keysym || m in suppressed {
          return true;
        }
        todo := todo - {m};
      }
      for i := 0 to |c.keystrokes|
        invariant (keysym, mods) !in c.keystrokes[..i]
      {
        if c.keystrokes[i].0 == keysym && c.keystrokes[i].1 == mods {
          return true;
        }
        assert c.keystrokes[..i + 1] == c.keystrokes[..i] + [c.keystrokes[i]];
      }
      assert c.keystrokes[..|c.keystrokes|] == c.keystrokes;
      return false;
    }

    method AnyClientGrabs(mods: nat, keysym: Keysym) returns (grab: bool)
      ensures grab <==> AnyGrabs(View(), mods, keysym)
    {
      var todo := clients.Keys;
      while todo != {}
        invariant todo <= clients.Keys
        invariant forall n :: n in clients.Keys - todo ==> !ShouldGrab(clients[n], suppressed, mods, keysym)
        decreases todo
      {
        var n :| n in todo;
        grab := ClientShouldGrab(clients[n], mods, keysym);
        if grab {
          return true;
        }
        todo := todo - {n};
      }
      return false;
    }

    method ProcessKey(key: Key, repeatDelay: nat) returns (verdict: Verdict)
      modifies this
      ensures (View(), verdict) == Process(old(View()), key, repeatDelay)
      ensures old(Valid()) ==> Valid()
    {
      var k := key.keysym;
      if k in grabbedMods {
        if key.released {
          if k !in suppressed {
            return Pass;
          }
        } else {
          var last := if k in lastPress then lastPress[k] else 0;
          lastPress := lastPress[k := key.time];
          if key.time <= last + repeatDelay {
            return Pass;
          }
        }
      }
      var block := false;
      if key.released {
        if k in suppressed {
          suppressed := suppressed - {k};
          block := true;
        }
      } else if k in suppressed {
        block := true;
      } else {
        block := AnyClientGrabs(key.mods, k);
        assert block == AnyGrabs(old(View()), key.mods, k);
        if block {
          suppressed := suppressed + {k};
        }
      }
      if !block {
        return Pass;
      } else if k in grabbedMods {
        return ModifierFirstPress;
      } else {
        return Block;
      }
    }

    method SetKeyGrabs(name: ClientName, modifiers: set<Keysym>, keystrokes: seq<(Keysym, nat)>)
      modifies this
      ensures forall delay: nat :: View() == Apply(old(View()), Event.SetKeyGrabs(name, modifiers, keystrokes), delay)
      ensures Valid()
    {
      var c := if name in clients then clients[name] else NO_GRABS;
      clients := clients[name := c.(modifiers := modifiers, keystrokes := keystrokes)];
      RebuildGrabbedMods();
    }

    method GrabKeyboard(name: ClientName)
      modifies this
      ensures forall delay: nat :: View() == Apply(old(View()), Event.GrabKeyboard(name), delay)
      ensures old(Valid()) ==> Valid()
    {
      if Valid() { ModsStayInStep(View(), Event.GrabKeyboard(name), 0); }
      var c := if name in clients then clients[name] else NO_GRABS;
      clients := clients[name := c.(grabbed := true)];
    }

    method UngrabKeyboard(name: ClientName)
      modifies this
      ensures forall delay: nat :: View() == Apply(old(View()), Event.UngrabKeyboard(name), delay)
      ensures old(Valid()) ==> Valid()
    {
      if Valid() { ModsStayInStep(View(), Event.UngrabKeyboard(name), 0); }
      if name in clients {
        clients := clients[name := clients[name].(grabbed := false)];
      }
    }

    method ClientDisappeared(name: ClientName)
      modifies this
      ensures forall delay: nat :: View() == Apply(old(View()), Event.Disappeared(name), delay)
      ensures Valid()
    {
      clients := clients - {name};
      RebuildGrabbedMods();
    }
  }
}
