/**
 The GPU bookkeeping as the TTY backend performs it, field by field. Each method is proved against
 the function of the same name on states.
 */
module GpuDevices {
  import opened Options
  import M = GpuMachine
  import GpuTheorems

  class Tty {
    const seat: M.Seat
    var active: bool
    var listed: set<M.Node>
    var ignored: set<M.Node>
    var devices: map<M.Node, Option<M.Node>>
    var gpuNodes: set<M.Node>
    var dmabufGlobal: bool
    var crashed: bool
    var complained: bool

    ghost function View(): M.State
      reads this
    {
      M.State(seat, active, listed, ignored, devices, gpuNodes, dmabufGlobal, crashed, complained)
    }

    // Nothing crashed or was reported missing, the dmabuf global and the render nodes are those the
    // devices need, and in an active session every device is listed.
    ghost predicate Valid()
      reads this
    {
      GpuTheorems.Good(View())
    }

    ghost predicate Awaits(e: M.Event)
      reads this
    {
      Valid() && M.CanHappen(View(), e)
    }

    constructor (seat: M.Seat, active: bool, listed: set<M.Node>)
      ensures View() == M.State(seat, active, listed, {}, map[], {}, false, false, false) && Valid()
    {
      this.seat, this.active, this.listed := seat, active, listed;
      ignored, devices, gpuNodes, dmabufGlobal := {}, map[], {}, false;
      crashed, complained := false, false;
    }

    method ComputeIgnoredNodes(config: set<M.Node>) returns (nodes: set<M.Node>)
      ensures nodes == M.ComputeIgnored(seat, config)
    {
      nodes := config;
      var removed := seat.primaryNode in nodes;
      nodes := nodes - {seat.primaryNode};
      if !removed {
        nodes := nodes - {seat.primaryRender};
      }
    }

    method DeviceAdded(n: M.Node, o: M.Opening)
      modifies this
      ensures View() == M.DeviceAdded(old(View()), n, o)
    {
      if crashed || !seat.isPrimary(n) || n in ignored || o.OpenFails? {
        return;
      }
      if o.render.Some? {
        gpuNodes := gpuNodes + {o.render.value};
      }
      if o.render == Some(seat.primaryRender) && !dmabufGlobal {
        if !o.rendererWorks {
          return;
        }
        dmabufGlobal := true;
      }
      if o.render.None? && seat.primaryNode !in devices {
        return;
      }
      if n in devices {
        crashed := true;
      } else {
        devices := devices[n := o.render];
      }
    }

    method DeviceChanged(n: M.Node, hasPath: bool, o: M.Opening)
      modifies this
      ensures View() == M.DeviceChanged(old(View()), n, hasPath, o)
    {
      if !seat.isPrimary(n) || n in ignored {
        return;
      }
      if n !in devices && hasPath {
        DeviceAdded(n, o);
      }
    }

    method DeviceRemoved(n: M.Node)
      modifies this
      ensures View() == M.DeviceRemoved(old(View()), n)
    {
      if crashed || !seat.isPrimary(n) || n !in devices {
        return;
      }
      var device := devices[n];
      devices := devices - {n};
      if device.Some? {
        var render := device.value;
        var wasLast := !(exists m :: m in devices && devices[m] == Some(render));
        if wasLast && render == seat.primaryRender {
          if dmabufGlobal {
            dmabufGlobal := false;
          } else {
            complained := true;
          }
        }
        if wasLast {
          gpuNodes := gpuNodes - {render};
        }
      }
    }

    method RemoveDevices(order: seq<M.Node>, which: set<M.Node>)
      modifies this
      ensures View() == M.RemoveAll(old(View()), order, which)
    {
      for i := 0 to |order|
        invariant View() == M.RemoveAll(old(View()), order[..i], which)
      {
        assert order[..i + 1][..i] == order[..i];
        if order[i] in which {
          DeviceRemoved(order[i]);
        }
      }
      assert order[..|order|] == order;
    }

    method AddDevices(order: seq<M.Node>, which: set<M.Node>, open: M.Openings)
      modifies this
      ensures View() == M.AddAll(old(View()), order, which, open)
    {
      for i := 0 to |order|
        invariant View() == M.AddAll(old(View()), order[..i], which, open)
      {
        assert order[..i + 1][..i] == order[..i];
        if order[i] in which {
          DeviceAdded(order[i], open(order[i]));
        }
      }
      assert order[..|order|] == order;
    }

    method OnInit(config: set<M.Node>, adding: seq<M.Node>, open: M.Openings)
      modifies this
      ensures View() == M.Init(old(View()), config, adding, open)
      ensures old(M.IsFresh(View()) && M.Enumerates(adding, listed)) ==> Valid()
    {
      if M.IsFresh(View()) && M.Enumerates(adding, listed) {
        GpuTheorems.StartsGood(View(), config, adding, open);
      }
      if !active {
        return;
      }
      ignored := ComputeIgnoredNodes(config);
      AddDevices(M.PrimaryFirst(seat, adding), listed, open);
    }

    // The udev source keeps its own list up to date; events of an inactive session are skipped.
    method OnUdevAdded(n: M.Node, config: set<M.Node>, o: M.Opening)
      requires !crashed
      modifies this
      ensures View() == M.Step(old(View()), M.Added(n, config, o))
      ensures old(Awaits(M.Added(n, config, o))) ==> Valid()
    {
      if Awaits(M.Added(n, config, o)) { GpuTheorems.StepKeeps(View(), M.Added(n, config, o)); }
      listed := listed + {n};
      if !active {
        return;
      }
      ignored := ComputeIgnoredNodes(config);
      DeviceAdded(n, o);
    }

    method OnUdevChanged(n: M.Node, hasPath: bool, o: M.Opening)
      requires !crashed
      modifies this
      ensures View() == M.Step(old(View()), M.Changed(n, hasPath, o))
      ensures old(Awaits(M.Changed(n, hasPath, o))) ==> Valid()
    {
      if Awaits(M.Changed(n, hasPath, o)) { GpuTheorems.StepKeeps(View(), M.Changed(n, hasPath, o)); }
      if !active {
        return;
      }
      DeviceChanged(n, hasPath, o);
    }

    method OnUdevRemoved(n: M.Node)
      requires !crashed
      modifies this
      ensures View() == M.Step(old(View()), M.Removed(n))
      ensures old(Awaits(M.Removed(n))) ==> Valid()
    {
      if Awaits(M.Removed(n)) { GpuTheorems.StepKeeps(View(), M.Removed(n)); }
      listed := listed - {n};
      if !active {
        return;
      }
      DeviceRemoved(n);
    }

    method OnPauseSession()
      requires !crashed
      modifies this`active
      ensures View() == M.Step(old(View()), M.Pause)
      ensures old(Valid()) ==> Valid()
    {
      if Valid() { GpuTheorems.StepKeeps(View(), M.Pause); }
      active := false;
    }

    method OnActivateSession(config: set<M.Node>, removing: seq<M.Node>, adding: seq<M.Node>, open: M.Openings)
      modifies this
      ensures View() == M.ActivateSession(old(View()), config, removing, adding, open)
      ensures old(Awaits(M.Activate(config, removing, adding, open))) ==> Valid()
    {
      if Awaits(M.Activate(config, removing, adding, open)) {
        GpuTheorems.StepKeeps(View(), M.Activate(config, removing, adding, open));
      }
      active := true;
      ignored := ComputeIgnoredNodes(config);
      var toAdd := listed - devices.Keys;
      var gone := set n | n in devices && (n !in listed || n in ignored);
      var remained := set n | n in devices && n in listed && n !in ignored;
      RemoveDevices(removing, gone);
      if !crashed && !(remained <= devices.Keys) {
        crashed := true;
      }
      AddDevices(M.PrimaryFirst(seat, adding), toAdd, open);
    }

    method UpdateIgnoredNodesConfig(config: set<M.Node>, removing: seq<M.Node>, adding: seq<M.Node>, open: M.Openings)
      modifies this
      ensures View() == M.UpdateIgnored(old(View()), config, removing, adding, open)
      ensures old(Awaits(M.Reconfigure(config, removing, adding, open))) ==> Valid()
    {
      if Awaits(M.Reconfigure(config, removing, adding, open)) {
        GpuTheorems.StepKeeps(View(), M.Reconfigure(config, removing, adding, open));
      }
      if !active {
        return;
      }
      var nodes := ComputeIgnoredNodes(config);
      if nodes == ignored {
        return;
      }
      ignored := nodes;
      var gone := set n | n in devices && (n in ignored || n !in listed);
      assert gone == M.Gone(View());
      var toAdd := listed - gone;
      RemoveDevices(removing, gone);
      toAdd := toAdd - devices.Keys;
      AddDevices(adding, toAdd, open);
    }
  }
}
