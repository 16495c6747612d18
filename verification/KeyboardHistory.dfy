/**
 What the keyboard monitor remembers of a run: the grabs of each client as last set, and the time of
 the last press of each grabbed modifier.
 */
module KeyboardHistory {
  import opened KeyboardMonitor

  function Front(es: seq<Event>): seq<Event>
    requires es != []
  {
    es[..|es| - 1]
  }

  function Last(es: seq<Event>): Event
    requires es != []
  {
    es[|es| - 1]
  }

  // --- Clients ----------------------------------------------------------------------------------

  // The client is forgotten, with everything it asked for.
  predicate Forgets(e: Event, n: ClientName) {
    e == Disappeared(n) || e == MonitorBroke
  }

  function Grabs(es: seq<Event>, n: ClientName): bool {
    if es == [] || Forgets(Last(es), n) || Last(es) == Event.UngrabKeyboard(n) then false
    else Last(es) == Event.GrabKeyboard(n) || Grabs(Front(es), n)
  }

  function Watches(es: seq<Event>, n: ClientName): bool {
    if es == [] || Forgets(Last(es), n) || Last(es) == UnwatchKeyboard(n) then false
    else Last(es) == WatchKeyboard(n) || Watches(Front(es), n)
  }

  predicate Sets(e: Event, n: ClientName) {
    e.SetKeyGrabs? && e.name == n
  }

  function Modifiers(es: seq<Event>, n: ClientName): set<Keysym> {
    if es == [] || Forgets(Last(es), n) then {}
    else if Sets(Last(es), n) then Last(es).modifiers
    else Modifiers(Front(es), n)
  }

  function Keystrokes(es: seq<Event>, n: ClientName): seq<(Keysym, nat)> {
    if es == [] || Forgets(Last(es), n) then []
    else if Sets(Last(es), n) then Last(es).keystrokes
    else Keystrokes(Front(es), n)
  }

  lemma OneMoreForClient(d: Data, e: Event, n: ClientName, repeatDelay: nat)
    ensures var c, c' := ClientOrDefault(d, n), ClientOrDefault(Apply(d, e, repeatDelay), n);
            if Forgets(e, n) then c' == NO_GRABS
            else
              && c'.grabbed == (if e == Event.GrabKeyboard(n) then true
                                else if e == Event.UngrabKeyboard(n) then false else c.grabbed)
              && c'.watched == (if e == WatchKeyboard(n) then true
                                else if e == UnwatchKeyboard(n) then false else c.watched)
              && c'.modifiers == (if Sets(e, n) then e.modifiers else c.modifiers)
              && c'.keystrokes == (if Sets(e, n) then e.keystrokes else c.keystrokes)
  {
  }

  // Each client's grabs are those it last asked for, unless it disappeared since.
  lemma {:induction false} ClientsExactly(es: seq<Event>, n: ClientName, repeatDelay: nat)
    ensures ClientOrDefault(After(es, repeatDelay), n) ==
            Client(Watches(es, n), Grabs(es, n), Modifiers(es, n), Keystrokes(es, n))
    decreases es
  {
    if es != [] {
      ClientsExactly(Front(es), n, repeatDelay);
      OneMoreForClient(After(Front(es), repeatDelay), Last(es), n, repeatDelay);
    }
  }

  // Some client has asked for the key as a modifier.
  ghost predicate AskedFor(es: seq<Event>, k: Keysym) {
    exists n :: k in Modifiers(es, n)
  }

  lemma {:induction false} AskedForExactly(es: seq<Event>, k: Keysym, repeatDelay: nat)
    ensures k in After(es, repeatDelay).grabbedMods <==> AskedFor(es, k)
  {
    var d := After(es, repeatDelay);
    ModsAlwaysInStep(es, repeatDelay);
    forall n ensures k in Modifiers(es, n) <==> n in d.clients && k in d.clients[n].modifiers {
      ClientsExactly(es, n, repeatDelay);
    }
  }

  // --- Times ------------------------------------------------------------------------------------

  // The j-th event is a press of `k` while `k` is a grabbed modifier.
  ghost predicate Timed(es: seq<Event>, j: int, k: Keysym) {
    0 <= j < |es| && IsPress(es[j], k) && AskedFor(es[..j], k)
  }

  lemma OneMorePress(d: Data, e: Event, k: Keysym, repeatDelay: nat)
    ensures var d' := Apply(d, e, repeatDelay);
            if IsPress(e, k) && k in d.grabbedMods then k in d'.lastPress && d'.lastPress[k] == e.key.time
            else (k in d'.lastPress <==> k in d.lastPress) && LastPress(d', k) == LastPress(d, k)
  {
  }

  // The remembered time is that of the last press of the key while it was a grabbed modifier.
  lemma {:induction false} LastPressExactly(es: seq<Event>, k: Keysym, repeatDelay: nat)
    ensures (forall j :: !Timed(es, j, k)) ==> LastPress(After(es, repeatDelay), k) == 0
    ensures forall j :: Timed(es, j, k) && (forall i :: j < i < |es| ==> !Timed(es, i, k)) ==>
              LastPress(After(es, repeatDelay), k) == es[j].key.time
    decreases es
  {
    if es != [] {
      var n, front := |es| - 1, Front(es);
      LastPressExactly(front, k, repeatDelay);
      OneMorePress(After(front, repeatDelay), Last(es), k, repeatDelay);
      AskedForExactly(front, k, repeatDelay);
      assert es[..n] == front;
      forall j | 0 <= j < n ensures Timed(es, j, k) <==> Timed(front, j, k) {
        assert front[..j] == es[..j];
      }
      assert Timed(es, n, k) <==> IsPress(Last(es), k) && k in After(front, repeatDelay).grabbedMods;
      LastOfFront(es, front, n, k, repeatDelay);
    }
  }

  lemma {:induction false} LastOfFront(es: seq<Event>, front: seq<Event>, n: int, k: Keysym, repeatDelay: nat)
    requires es != [] && n == |es| - 1 && front == es[..n]
    requires forall j :: 0 <= j < n ==> (Timed(es, j, k) <==> Timed(front, j, k))
    requires (forall j :: !Timed(front, j, k)) ==> LastPress(After(front, repeatDelay), k) == 0
    requires forall j :: Timed(front, j, k) && (forall i :: j < i < n ==> !Timed(front, i, k)) ==>
               LastPress(After(front, repeatDelay), k) == front[j].key.time
    requires var d' := After(es, repeatDelay);
             if Timed(es, n, k) then LastPress(d', k) == es[n].key.time
             else LastPress(d', k) == LastPress(After(front, repeatDelay), k)
    ensures (forall j :: !Timed(es, j, k)) ==> LastPress(After(es, repeatDelay), k) == 0
    ensures forall j :: Timed(es, j, k) && (forall i :: j < i < |es| ==> !Timed(es, i, k)) ==>
              LastPress(After(es, repeatDelay), k) == es[j].key.time
  {
    if forall j :: !Timed(es, j, k) {
      forall j ensures !Timed(front, j, k) {
        if 0 <= j < n { assert Timed(es, j, k) <==> Timed(front, j, k); }
      }
    }
    forall j | Timed(es, j, k) && forall i :: j < i < |es| ==> !Timed(es, i, k)
      ensures LastPress(After(es, repeatDelay), k) == es[j].key.time
    {
      if j < n {
        assert !Timed(es, n, k) && Timed(front, j, k);
        assert forall i :: j < i < n ==> !Timed(front, i, k);
      }
    }
  }

  // --- Verdicts ---------------------------------------------------------------------------------

  // A withheld key is reported as a modifier exactly if some client has asked for it as one.
  lemma {:induction false} VerdictExactly(es: seq<Event>, key: Key, repeatDelay: nat)
    ensures var v := Process(After(es, repeatDelay), key, repeatDelay).1;
            v != Pass ==> v == if AskedFor(es, key.keysym) then ModifierFirstPress else Block
  {
    AskedForExactly(es, key.keysym, repeatDelay);
  }
}
