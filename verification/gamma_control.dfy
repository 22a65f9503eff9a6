/**
 * The wlr-gamma-control-unstable-v1 manager and its control objects.
 *
 * Heap objects of the compositor are classes here: an output, the client's
 * file descriptor, the protocol resource of a control, a bound manager
 * resource, the control itself and the manager with its two lists.
 * A control passes through four states: attached and tracked by the
 * manager, attached but untracked, detached (its resource's user data is
 * null and the object is freed), and gone with its resource.
 */
module GammaControlV1 {
  import opened Ramp
  import opened IntrusiveList

  /** What the compositor sends on a control resource. */
  datatype Event =
    | GammaSize(size: uint32)   // zwlr_gamma_control_v1.gamma_size
    | Failed                    // zwlr_gamma_control_v1.failed
    | InvalidGammaError         // protocol error invalid_gamma, fatal to the client

  /** An output's changing part at one moment: its ramp, its `set_gamma` calls, its destroy listeners. */
  datatype OutputState = OutputState(gamma: Gamma, calls: seq<Gamma>, listeners: set<GammaControl>)
  {
    /**
     * What `gamma_control_destroy(c)` makes of this state: exactly one more
     * `set_gamma` call, asking for passthrough; the ramp is passthrough if
     * the backend took that call and unchanged if it did not (the result of
     * the call is ignored); `c` no longer listens and every other listener
     * stays.
     */
    function AfterReset(c: GammaControl, accepted: bool): OutputState
    {
      OutputState(if accepted then Passthrough else gamma, calls + [Passthrough], listeners - {c})
    }
  }

  /**
   * A `wlr_output` as this protocol uses it: its gamma size, whether its
   * backend implements `set_gamma`, which ramps the backend accepts, the
   * ramp it currently carries, every `wlr_output_set_gamma` call made on it
   * and the listeners on its destroy signal.
   */
  class Output {
    const gammaSize: uint32
    const hasSetGamma: bool
    const accepts: Gamma -> bool
    var gamma: Gamma
    var calls: seq<Gamma>
    var destroyListeners: set<GammaControl>

    ghost predicate Valid()
      reads this
    {
      gammaSize <= MaxRampSize && (!hasSetGamma ==> gamma == Passthrough)
    }

    constructor (gammaSize: uint32, hasSetGamma: bool, accepts: Gamma -> bool)
      requires gammaSize <= MaxRampSize
      ensures Valid()
      ensures this.gammaSize == gammaSize && this.hasSetGamma == hasSetGamma && this.accepts == accepts
      ensures gamma == Passthrough && calls == [] && destroyListeners == {}
    {
      this.gammaSize := gammaSize;
      this.hasSetGamma := hasSetGamma;
      this.accepts := accepts;
      gamma := Passthrough;
      calls := [];
      destroyListeners := {};
    }

    /** Whether `wlr_output_set_gamma` succeeds with `g`. */
    predicate Accepts(g: Gamma)
    {
      hasSetGamma && accepts(g)
    }

    ghost function State(): OutputState
      reads this
    {
      OutputState(gamma, calls, destroyListeners)
    }

    /** This output is in the state `gamma_control_destroy(c)` leaves behind, starting from `s`. */
    ghost predicate ResetFrom(s: OutputState, c: GammaControl)
      reads this
    {
      State() == s.AfterReset(c, Accepts(Passthrough))
    }

    /** `wlr_output_set_gamma`: logs the call, records the ramp when the backend takes it. */
    method SetGamma(g: Gamma) returns (ok: bool)
      requires Valid()
      modifies this`gamma, this`calls
      ensures Valid()
      ensures ok == Accepts(g)
      ensures calls == old(calls) + [g]
      ensures gamma == if ok then g else old(gamma)
    {
      calls := calls + [g];
      ok := Accepts(g);
      if ok {
        gamma := g;
      }
    }
  }

  /** The file descriptor passed with `set_gamma`. */
  class Fd {
    const stream: Stream
    var nonBlocking: bool
    var closed: bool

    constructor (stream: Stream)
      ensures this.stream == stream && !nonBlocking && !closed
    {
      this.stream := stream;
      nonBlocking := false;
      closed := false;
    }

    /**
     * One `read(fd, table, table.Length * 2)`: -1 on error, otherwise the
     * bytes of the samples that were available, at most the table's size.
     */
    method Read(table: array<uint16>) returns (n: int)
      modifies table
      ensures stream.contents.None? ==> n == -1 && table[..] == old(table[..])
      ensures stream.contents.Some? ==>
        var k := if |stream.contents.value| < table.Length then |stream.contents.value| else table.Length;
        n == k * SampleBytes && table[..k] == stream.contents.value[..k]
    {
      if stream.contents.None? {
        return -1;
      }
      var data := stream.contents.value;
      var k := if |data| < table.Length then |data| else table.Length;
      forall i | 0 <= i < k {
        table[i] := data[i];
      }
      n := k * SampleBytes;
    }

    /** `close(fd)`. */
    method Close()
      modifies this`closed
      ensures closed
    {
      closed := true;
    }
  }

  /** The `wl_resource` of a control; its user data is the control or null. */
  class ControlResource {
    var userData: GammaControl?
    var destroyed: bool
    var events: seq<Event>

    constructor ()
      ensures userData == null && !destroyed && events == []
    {
      userData := null;
      destroyed := false;
      events := [];
    }

    /**
     * A resource that can still receive requests: either inert (user data
     * null) or pointing at a live control that points back at it.
     */
    ghost predicate Valid()
      reads this, userData, if userData == null then {} else {userData.output}
    {
      !destroyed && (userData != null ==> userData.resource == this && userData.Live())
    }
  }

  /** A client's binding of the manager global. */
  class ManagerResource {
    var destroyed: bool

    constructor ()
      ensures !destroyed
    {
      destroyed := false;
    }
  }

  /** `struct wlr_gamma_control_v1`. */
  class GammaControl {
    const output: Output
    const resource: ControlResource
    ghost var freed: bool

    constructor (output: Output, resource: ControlResource)
      ensures this.output == output && this.resource == resource && !freed
    {
      this.output := output;
      this.resource := resource;
      freed := false;
    }

    /** Not freed, reachable from its resource and listening to its output's destruction. */
    ghost predicate Attached()
      reads this, resource, output
    {
      !freed && resource.userData == this && this in output.destroyListeners && output.Valid()
    }

    /** Freed, with its resource destroyed and detached, and no longer listening on its output. */
    ghost predicate TornDown()
      reads this, resource, output
    {
      freed && resource.destroyed && resource.userData == null && this !in output.destroyListeners
    }

    /** Torn down, with its output reset from `s` as `gamma_control_destroy` leaves it. */
    ghost predicate TornDownFrom(s: OutputState)
      reads this, resource, output
    {
      TornDown() && output.ResetFrom(s, this)
    }

    /** Attached to an output that supports gamma, with its resource alive. */
    ghost predicate Live()
      reads this, resource, output
    {
      Attached() && output.hasSetGamma && !resource.destroyed
    }
  }

  /** `struct wlr_gamma_control_manager_v1`. */
  class Manager {
    var controls: seq<GammaControl>        // manager->controls
    var resources: seq<ManagerResource>    // manager->resources
    var destroyed: bool                    // global destroyed and manager freed

    /** Every object the manager's lists reach. */
    ghost function Footprint(): set<object>
      reads this
    {
      (set c | c in controls :: c as object) + (set c | c in controls :: c.resource as object) +
      (set c | c in controls :: c.output as object) + (set r | r in resources :: r as object)
    }

    /**
     * The tracked-list invariant: no control twice, at most one tracked
     * control per output, every tracked control live, every bound resource
     * alive and listed once.
     */
    ghost predicate Valid()
      reads this, Footprint()
    {
      NoDup(controls) && NoDup(resources) &&
      (forall c1, c2 :: c1 in controls && c2 in controls && c1.output == c2.output ==> c1 == c2) &&
      (forall c :: c in controls ==> c.Live()) &&
      (forall r :: r in resources ==> !r.destroyed)
    }

    /** The tracked controls of `output` (at most one when Valid). */
    ghost function TrackedFor(output: Output): set<GammaControl>
      reads this
    {
      set c | c in controls && c.output == output
    }

    /**
     * Every control listening on `output`'s destroy signal is tracked. With
     * `Valid()` this means at most one control drives the output.
     */
    ghost predicate Exclusive(output: Output)
      reads this, output
    {
      output.destroyListeners <= TrackedFor(output)
    }

    /** An exclusive output has at most one attached control, and that one is tracked. */
    lemma ExclusiveMeansOneController(output: Output, d1: GammaControl, d2: GammaControl)
      requires Valid() && Exclusive(output)
      requires d1.output == output && d2.output == output && d1.Attached() && d2.Attached()
      ensures d1 == d2 && d1 in controls
    {
      assert d1 in TrackedFor(output) && d2 in TrackedFor(output);
    }

    /** `wlr_gamma_control_manager_v1_create`, without the global and display wiring. */
    constructor ()
      ensures Valid() && controls == [] && resources == [] && !destroyed
    {
      controls := [];
      resources := [];
      destroyed := false;
    }

    /** `gamma_control_destroy`: NULL is a no-op; otherwise reset, detach, unsubscribe, untrack, free. */
    method DestroyControl(c: GammaControl?)
      requires Valid()
      requires c != null ==> c.Attached()
      modifies this`controls, (if c == null then {} else {c})`freed,
        (if c == null then {} else {c.resource})`userData,
        (if c == null then {} else {c.output})`gamma,
        (if c == null then {} else {c.output})`calls,
        (if c == null then {} else {c.output})`destroyListeners
      ensures Valid()
      ensures c == null ==> controls == old(controls)
      ensures c != null ==>
        var gc: GammaControl := c;
        gc.freed && gc.resource.userData == null &&
        gc.output.ResetFrom(old(gc.output.State()), gc) &&
        controls == Remove(old(controls), gc)
    {
      if c == null {
        return;
      }
      var gc: GammaControl := c;
      var _ := gc.output.SetGamma(Passthrough);
      gc.resource.userData := null;
      gc.output.destroyListeners := gc.output.destroyListeners - {gc};
      controls := Remove(controls, gc);
      gc.freed := true;
    }

    /** `gamma_control_send_failed`: send `failed`, then destroy. */
    method SendFailed(c: GammaControl)
      requires Valid() && c.Attached()
      modifies this`controls, c`freed, c.resource`userData, c.resource`events,
        c.output`gamma, c.output`calls, c.output`destroyListeners
      ensures Valid()
      ensures c.freed && c.resource.userData == null
      ensures c.output.ResetFrom(old(c.output.State()), c)
      ensures controls == Remove(old(controls), c)
      ensures c.resource.events == old(c.resource.events) + [Failed]
    {
      c.resource.events := c.resource.events + [Failed];
      DestroyControl(c);
    }

    /** `gamma_control_handle_resource_destroy`: destroy the control the resource still points at, if any. */
    method HandleResourceDestroy(r: ControlResource)
      requires Valid() && r.Valid()
      modifies this`controls, r`userData,
        (if r.userData == null then {} else {r.userData})`freed,
        (if r.userData == null then {} else {r.userData.output})`gamma,
        (if r.userData == null then {} else {r.userData.output})`calls,
        (if r.userData == null then {} else {r.userData.output})`destroyListeners
      ensures Valid()
      ensures r.userData == null
      ensures old(r.userData) == null ==> controls == old(controls)
      ensures old(r.userData) != null ==>
        var c: GammaControl := old(r.userData);
        c.freed && c.output.ResetFrom(old(c.output.State()), c) &&
        controls == Remove(old(controls), c)
    {
      DestroyControl(r.userData);
    }

    /**
     * `wl_resource_destroy` on a control resource, as done for the client's
     * `destroy` request (`gamma_control_handle_destroy`) and by the manager's
     * teardown: the destroy handler runs, then the resource is gone.
     */
    method DestroyControlResource(r: ControlResource)
      requires Valid() && r.Valid()
      modifies this`controls, r`userData, r`destroyed,
        (if r.userData == null then {} else {r.userData})`freed,
        (if r.userData == null then {} else {r.userData.output})`gamma,
        (if r.userData == null then {} else {r.userData.output})`calls,
        (if r.userData == null then {} else {r.userData.output})`destroyListeners
      ensures Valid()
      ensures r.destroyed && r.userData == null
      ensures old(r.userData) == null ==> controls == old(controls)
      ensures old(r.userData) != null ==>
        var c: GammaControl := old(r.userData);
        c.TornDown() && c.output.ResetFrom(old(c.output.State()), c) &&
        controls == Remove(old(controls), c)
    {
      HandleResourceDestroy(r);
      r.destroyed := true;
    }

    /** `gamma_control_handle_output_destroy`: the listener `c` fires as its output goes away. */
    method HandleOutputDestroy(c: GammaControl)
      requires Valid() && c.Attached()
      modifies this`controls, c`freed, c.resource`userData,
        c.output`gamma, c.output`calls, c.output`destroyListeners
      ensures Valid()
      ensures c.freed && c.resource.userData == null
      ensures c.output.ResetFrom(old(c.output.State()), c)
      ensures c !in controls && controls == Remove(old(controls), c)
    {
      DestroyControl(c);
    }

    /** The search loop of `get_gamma_control`: the tracked control of `output`, if there is one. */
    method FindTracked(output: Output) returns (found: GammaControl?)
      ensures found == null <==> (forall c :: c in controls ==> c.output != output)
      ensures found != null ==> found in controls && found.output == output
    {
      var i := 0;
      while i < |controls|
        invariant 0 <= i <= |controls|
        invariant forall k :: 0 <= k < i ==> controls[k].output != output
      {
        if controls[i].output == output {
          return controls[i];
        }
        i := i + 1;
      }
      return null;
    }

    /**
     * `gamma_control_manager_get_gamma_control`, as written: an output
     * without `set_gamma` fails the new control at once; an output that
     * already has a tracked control has that one failed and destroyed, and
     * the new control is left attached but untracked, with no `gamma_size`;
     * otherwise the new control is tracked and told the gamma size.
     */
    method GetGammaControl(output: Output) returns (res: ControlResource, ghost control: GammaControl)
      requires Valid() && !destroyed && output.Valid()
      modifies this`controls, output`gamma, output`calls, output`destroyListeners, TrackedFor(output)`freed,
        (set c | c in TrackedFor(output) :: c.resource)`userData,
        (set c | c in TrackedFor(output) :: c.resource)`events
      ensures Valid() && res.Valid() && output.Valid()
      ensures fresh(res) && fresh(control) && control.resource == res && control.output == output
      ensures !output.hasSetGamma ==>
        res.events == [Failed] && res.userData == null && control.freed &&
        controls == old(controls) && output.gamma == old(output.gamma) &&
        output.calls == old(output.calls) + [Passthrough] &&
        output.destroyListeners == old(output.destroyListeners)
      ensures output.hasSetGamma && old(TrackedFor(output)) != {} ==>
        res.events == [] && res.userData == control && control.Live() && control !in controls &&
        TrackedFor(output) == {} &&
        output.calls == old(output.calls) + [Passthrough] &&
        output.gamma == (if output.Accepts(Passthrough) then Passthrough else old(output.gamma)) &&
        output.destroyListeners == old(output.destroyListeners) - old(TrackedFor(output)) + {control} &&
        forall gc :: gc in old(TrackedFor(output)) ==>
          gc.freed && gc.resource.userData == null &&
          gc.resource.events == old(gc.resource.events) + [Failed] &&
          controls == Remove(old(controls), gc)
      ensures output.hasSetGamma && old(TrackedFor(output)) == {} ==>
        res.events == [GammaSize(output.gammaSize)] && res.userData == control && control.Live() &&
        controls == [control] + old(controls) && TrackedFor(output) == {control} &&
        output.gamma == old(output.gamma) && output.calls == old(output.calls) &&
        output.destroyListeners == old(output.destroyListeners) + {control}
    {
      var c;
      res, c := CreateControl(output);
      control := c;

      if !output.hasSetGamma {
        SendFailed(c);
        return;
      }

      var gc := FindTracked(output);
      if gc != null {
        Evict(gc);
        return;
      }

      Announce(c);
    }

    /**
     * `get_gamma_control` as its eviction evidently intends: the tracked
     * control of a supporting output, if any, is sent `failed` and
     * destroyed, and the new control takes its place in the tracked list and
     * is told the gamma size. An exclusive output stays exclusive, and then
     * the new control is the only one listening on it.
     */
    method GetGammaControlLatestWins(output: Output) returns (res: ControlResource, ghost control: GammaControl)
      requires Valid() && !destroyed && output.Valid()
      modifies this`controls, output`gamma, output`calls, output`destroyListeners, TrackedFor(output)`freed,
        (set c | c in TrackedFor(output) :: c.resource)`userData,
        (set c | c in TrackedFor(output) :: c.resource)`events
      ensures Valid() && res.Valid() && output.Valid()
      ensures fresh(res) && fresh(control) && control.resource == res && control.output == output
      ensures !output.hasSetGamma ==>
        res.events == [Failed] && res.userData == null && control.freed &&
        controls == old(controls) && output.gamma == old(output.gamma) &&
        output.calls == old(output.calls) + [Passthrough] &&
        output.destroyListeners == old(output.destroyListeners)
      ensures output.hasSetGamma ==>
        res.events == [GammaSize(output.gammaSize)] && res.userData == control && control.Live() &&
        control in controls && TrackedFor(output) == {control} &&
        output.destroyListeners == old(output.destroyListeners) - old(TrackedFor(output)) + {control}
      ensures output.hasSetGamma && old(TrackedFor(output)) == {} ==>
        controls == [control] + old(controls) &&
        output.gamma == old(output.gamma) && output.calls == old(output.calls)
      ensures output.hasSetGamma ==> forall gc :: gc in old(TrackedFor(output)) ==>
        gc.freed && gc.resource.userData == null && gc.resource.events == old(gc.resource.events) + [Failed] &&
        controls == [control] + Remove(old(controls), gc) &&
        output.calls == old(output.calls) + [Passthrough] &&
        output.gamma == (if output.Accepts(Passthrough) then Passthrough else old(output.gamma))
      ensures old(Exclusive(output)) ==> Exclusive(output)
      ensures output.hasSetGamma && old(Exclusive(output)) ==> output.destroyListeners == {control}
    {
      var c;
      res, c := CreateControl(output);
      control := c;

      if !output.hasSetGamma {
        SendFailed(c);
        return;
      }

      var gc := FindTracked(output);
      if gc != null {
        Evict(gc);
      }

      Announce(c);
    }

    /**
     * The eviction in `get_gamma_control`: the tracked control `gc` is sent
     * `failed` and destroyed, which leaves its output with no tracked control.
     */
    method Evict(gc: GammaControl)
      requires Valid() && gc in controls
      modifies this`controls, gc`freed, gc.resource`userData, gc.resource`events,
        gc.output`gamma, gc.output`calls, gc.output`destroyListeners
      ensures Valid() && TrackedFor(gc.output) == {}
      ensures gc.freed && gc.resource.userData == null
      ensures gc.resource.events == old(gc.resource.events) + [Failed]
      ensures gc.output.ResetFrom(old(gc.output.State()), gc)
      ensures controls == Remove(old(controls), gc)
    {
      assert TrackedFor(gc.output) == {gc};
      SendFailed(gc);
    }

    /**
     * The tail of `get_gamma_control`: the live control `c` of an output
     * with no tracked control is tracked at the head and sent the gamma size.
     */
    method Announce(c: GammaControl)
      requires Valid() && c.Live() && c.resource.events == [] && TrackedFor(c.output) == {}
      modifies this`controls, c.resource`events
      ensures Valid() && c.Live() && c.resource.Valid()
      ensures controls == [c] + old(controls) && TrackedFor(c.output) == {c}
      ensures c.resource.events == [GammaSize(c.output.gammaSize)]
    {
      Track(c);
      c.resource.events := c.resource.events + [GammaSize(c.output.gammaSize)];
    }

    /**
     * The allocation part of `get_gamma_control`: a resource whose user data
     * is a new control for `output`, subscribed to the output's destroy
     * signal, with its link initialised but in no list.
     */
    method CreateControl(output: Output) returns (res: ControlResource, c: GammaControl)
      requires Valid() && output.Valid()
      modifies output`destroyListeners
      ensures Valid()
      ensures fresh(res) && fresh(c) && c.resource == res && c.output == output
      ensures res.userData == c && res.events == [] && !res.destroyed && c.Attached() && c !in controls
      ensures output.destroyListeners == old(output.destroyListeners) + {c}
    {
      res := new ControlResource();
      c := new GammaControl(output, res);
      res.userData := c;
      output.destroyListeners := output.destroyListeners + {c};
    }

    /** `wl_list_insert(&manager->controls, &gamma_control->link)`: track `c` at the head. */
    method Track(c: GammaControl)
      requires Valid() && c.Live() && TrackedFor(c.output) == {}
      modifies this`controls
      ensures Valid()
      ensures controls == [c] + old(controls)
      ensures TrackedFor(c.output) == {c}
    {
      forall d | d in controls ensures d.output != c.output {
        assert d in TrackedFor(d.output);
      }
      ConsNoDup(c, controls);
      controls := [c] + controls;
    }

    /**
     * `gamma_control_handle_set_gamma`. On an inert resource only the fd is
     * closed. Otherwise the exit is the one `SetGammaOutcomeOf` names:
     * a length mismatch posts the protocol error and leaves the control and
     * the output alone; a soft failure sends `failed` and destroys the
     * control, resetting its output; success installs the ramp and keeps the
     * fd open. The table is released on every path that allocated it.
     */
    method HandleSetGamma(r: ControlResource, fd: Fd) returns (ghost tableAllocated: bool, ghost tableFreed: bool)
      requires Valid() && r.Valid() && !fd.closed
      modifies this`controls, r`userData, r`events, fd`nonBlocking, fd`closed,
        (if r.userData == null then {} else {r.userData})`freed,
        (if r.userData == null then {} else {r.userData.output})`gamma,
        (if r.userData == null then {} else {r.userData.output})`calls,
        (if r.userData == null then {} else {r.userData.output})`destroyListeners
      ensures Valid() && r.Valid()
      ensures tableFreed == tableAllocated
      ensures old(r.userData) == null ==>
        fd.closed && fd.nonBlocking == old(fd.nonBlocking) && !tableAllocated &&
        r.userData == null && r.events == old(r.events) && controls == old(controls)
      ensures old(r.userData) != null ==>
        var c: GammaControl := old(r.userData);
        var o := SetGammaOutcomeOf(c.output.gammaSize, fd.stream, c.output.accepts);
        (tableAllocated <==> (o.Applied? || o.Rejected? || o == ShortRead)) &&
        (fd.nonBlocking <==> old(fd.nonBlocking) || (o != InvalidSize && o != FlagsFailed)) &&
        (fd.closed <==> !o.Applied?) &&
        (o == InvalidSize ==>
          r.events == old(r.events) + [InvalidGammaError] && r.userData == c && c.Live() &&
          controls == old(controls) && c.output.State() == old(c.output.State())) &&
        (o.Applied? ==>
          r.events == old(r.events) && r.userData == c && c.Live() && controls == old(controls) &&
          c.output.gamma == o.gamma && c.output.calls == old(c.output.calls) + [o.gamma] &&
          c.output.destroyListeners == old(c.output.destroyListeners)) &&
        (o.IsSoftFailure() ==>
          r.events == old(r.events) + [Failed] && r.userData == null && c.freed &&
          controls == Remove(old(controls), c)) &&
        (o == FlagsFailed || o == ShortRead ==>
          c.output.ResetFrom(old(c.output.State()), c)) &&
        (o.Rejected? ==>
          c.output.ResetFrom(old(c.output.State()).(calls := old(c.output.calls) + [o.gamma]), c))
    {
      var c := r.userData;
      if c == null {
        fd.Close();
        return false, false;
      }
      tableAllocated, tableFreed := SetGammaOn(c, fd);
    }

    /**
     * `set_gamma` past the user-data check, for the live control `c`: the
     * size check, the two `fcntl` calls, the read and the apply, with the
     * `error_table` and `error_fd` cleanups.
     */
    method SetGammaOn(c: GammaControl, fd: Fd) returns (ghost tableAllocated: bool, ghost tableFreed: bool)
      requires Valid() && c.Live() && !fd.closed
      modifies this`controls, c`freed, c.resource`userData, c.resource`events, fd`nonBlocking, fd`closed,
        c.output`gamma, c.output`calls, c.output`destroyListeners
      ensures Valid()
      ensures tableFreed == tableAllocated
      ensures
        var o := SetGammaOutcomeOf(c.output.gammaSize, fd.stream, c.output.accepts);
        (tableAllocated <==> (o.Applied? || o.Rejected? || o == ShortRead)) &&
        (fd.nonBlocking <==> old(fd.nonBlocking) || (o != InvalidSize && o != FlagsFailed)) &&
        (fd.closed <==> !o.Applied?) &&
        (o == InvalidSize ==>
          c.resource.events == old(c.resource.events) + [InvalidGammaError] && c.Live() &&
          controls == old(controls) && c.output.State() == old(c.output.State())) &&
        (o.Applied? ==>
          c.resource.events == old(c.resource.events) && c.Live() && controls == old(controls) &&
          c.output.gamma == o.gamma && c.output.calls == old(c.output.calls) + [o.gamma] &&
          c.output.destroyListeners == old(c.output.destroyListeners)) &&
        (o.IsSoftFailure() ==>
          c.resource.events == old(c.resource.events) + [Failed] && c.resource.userData == null &&
          c.freed && controls == Remove(old(controls), c)) &&
        (o == FlagsFailed || o == ShortRead ==>
          c.output.ResetFrom(old(c.output.State()), c)) &&
        (o.Rejected? ==>
          c.output.ResetFrom(old(c.output.State()).(calls := old(c.output.calls) + [o.gamma]), c))
    {
      tableAllocated, tableFreed := false, false;
      label errorFd: {
        label errorTable: {
          var rampSize := c.output.gammaSize;
          var tableSize := TableSize(rampSize);

          var fdSize := fd.stream.seekSize;
          if fdSize.Some? && fdSize.value != tableSize {
            c.resource.events := c.resource.events + [InvalidGammaError];
            break errorFd;
          }

          if !fd.stream.getFlagsOk {
            SendFailed(c);
            break errorFd;
          }
          if !fd.stream.setFlagsOk {
            SendFailed(c);
            break errorFd;
          }
          fd.nonBlocking := true;

          tableAllocated := true;
          var read := ReadGamma(fd, rampSize);
          if read.None? {
            SendFailed(c);
            break errorTable;
          }

          var ok := ApplyGamma(c, read.value);
          if !ok {
            break errorTable;
          }

          tableFreed := true;
          return;
        }
        tableFreed := true;
      }
      fd.Close();
    }

    /**
     * The last stage of `set_gamma`: hand the ramp to the output; when the
     * output refuses it, send `failed` and destroy the control.
     */
    method ApplyGamma(c: GammaControl, gamma: Gamma) returns (ok: bool)
      requires Valid() && c.Live()
      modifies this`controls, c`freed, c.resource`userData, c.resource`events,
        c.output`gamma, c.output`calls, c.output`destroyListeners
      ensures Valid()
      ensures ok == c.output.Accepts(gamma)
      ensures ok ==>
        c.Live() && controls == old(controls) && c.resource.events == old(c.resource.events) &&
        c.output.gamma == gamma && c.output.calls == old(c.output.calls) + [gamma] &&
        c.output.destroyListeners == old(c.output.destroyListeners)
      ensures !ok ==>
        c.freed && c.resource.userData == null && controls == Remove(old(controls), c) &&
        c.resource.events == old(c.resource.events) + [Failed] &&
        c.output.ResetFrom(old(c.output.State()).(calls := old(c.output.calls) + [gamma]), c)
    {
      ok := c.output.SetGamma(gamma);
      if !ok {
        SendFailed(c);
      }
    }

    /** `gamma_control_manager_bind`: a new manager resource at the head of `resources`. */
    method Bind() returns (r: ManagerResource)
      requires Valid() && !destroyed
      modifies this`resources
      ensures Valid()
      ensures fresh(r) && !r.destroyed
      ensures resources == [r] + old(resources)
    {
      r := new ManagerResource();
      ConsNoDup(r, resources);
      resources := [r] + resources;
    }

    /**
     * `wl_resource_destroy` on a manager resource; its destroy handler
     * (`gamma_control_manager_handle_resource_destroy`) unlinks it.
     */
    method DestroyManagerResource(r: ManagerResource)
      requires Valid() && r in resources
      modifies this`resources, r`destroyed
      ensures Valid()
      ensures r.destroyed
      ensures resources == Remove(old(resources), r)
    {
      resources := Remove(resources, r);
      r.destroyed := true;
    }

    /**
     * The body of `wlr_gamma_control_manager_v1_destroy`: destroy every
     * tracked control's resource (which resets its output), then every bound
     * manager resource, then the global. Untracked controls are not touched.
     */
    method Destroy()
      requires Valid() && !destroyed
      modifies this, Footprint()
      ensures destroyed && controls == [] && resources == []
      ensures forall c :: c in old(controls) ==>
        c.TornDownFrom(old(c.output.State())) && c.resource.events == old(c.resource.events)
      ensures forall r :: r in old(resources) ==> r.destroyed
    {
      DestroyTrackedControls();
      DestroyBoundResources();
      destroyed := true;
    }

    /** The first loop of the teardown: `wl_resource_destroy` on each tracked control, head first. */
    method DestroyTrackedControls()
      requires Valid()
      modifies this`controls, (set c | c in controls :: c)`freed,
        (set c | c in controls :: c.resource)`userData, (set c | c in controls :: c.resource)`destroyed,
        (set c | c in controls :: c.output)`gamma, (set c | c in controls :: c.output)`calls,
        (set c | c in controls :: c.output)`destroyListeners
      ensures Valid() && controls == []
      ensures forall c :: c in old(controls) ==>
        c.TornDownFrom(old(c.output.State())) && c.resource.events == old(c.resource.events)
    {
      ghost var before := map o | o in (set c | c in controls :: c.output) :: o.State();
      ghost var done: set<GammaControl> := {};
      while controls != []
        invariant Valid()
        invariant forall c :: c in controls ==> c in old(controls)
        invariant forall c :: c in old(controls) ==> c in done || c in controls
        invariant forall d :: d in done ==> d.output in before && d.TornDownFrom(before[d.output])
        invariant forall c :: c in controls ==> c.output in before && c.output.State() == before[c.output]
        decreases |controls|
      {
        var c := controls[0];
        assert c in controls;
        DestroyFirstControl(done, before);
        done := done + {c};
      }
    }

    /**
     * One step of that loop: destroy the resource of the head control. Of
     * the outputs, only the head's changes, and it is reset from its state
     * in `before`; the controls already torn down stay as they were.
     */
    method DestroyFirstControl(ghost done: set<GammaControl>, ghost before: map<Output, OutputState>)
      requires Valid() && controls != []
      requires forall d :: d in done ==> d.output in before && d.TornDownFrom(before[d.output])
      requires forall c :: c in controls ==> c.output in before && c.output.State() == before[c.output]
      modifies this`controls, {controls[0]}`freed,
        {controls[0].resource}`userData, {controls[0].resource}`destroyed,
        {controls[0].output}`gamma, {controls[0].output}`calls, {controls[0].output}`destroyListeners
      ensures Valid() && controls == old(controls[1..])
      ensures forall d :: d in done + {old(controls[0])} ==> d.output in before && d.TornDownFrom(before[d.output])
      ensures forall c :: c in controls ==> c.output in before && c.output.State() == before[c.output]
    {
      var c := controls[0];
      assert c.Live() && |c.output.calls| == |before[c.output].calls|;
      assert forall d :: d in done ==> |d.output.calls| == |before[d.output].calls| + 1;
      assert forall d :: d in done ==> d != c && d.resource != c.resource && d.output != c.output;
      DestroyHead(before);
    }

    /** The head control's resource destroyed: only the head's output changes, and it is reset. */
    method DestroyHead(ghost before: map<Output, OutputState>)
      requires Valid() && controls != []
      requires forall c :: c in controls ==> c.output in before && c.output.State() == before[c.output]
      modifies this`controls, {controls[0]}`freed,
        {controls[0].resource}`userData, {controls[0].resource}`destroyed,
        {controls[0].output}`gamma, {controls[0].output}`calls, {controls[0].output}`destroyListeners
      ensures Valid() && controls == old(controls[1..])
      ensures var h := old(controls[0]); h.output in before && h.TornDownFrom(before[h.output])
      ensures forall c :: c in controls ==> c.output in before && c.output.State() == before[c.output]
    {
      var c := controls[0];
      assert c.Live() && c.resource.userData == c;
      ghost var rest := controls[1..];
      assert forall d :: d in rest ==> d.output != c.output;
      DestroyControlResource(c.resource);
      assert controls == rest;
    }

    /** The second loop of the teardown: `wl_resource_destroy` on each bound manager resource. */
    method DestroyBoundResources()
      requires Valid() && controls == []
      modifies this`resources, (set r | r in resources :: r)`destroyed
      ensures resources == []
      ensures forall r :: r in old(resources) ==> r.destroyed
    {
      var rs := resources;
      var j := 0;
      while j < |rs|
        invariant 0 <= j <= |rs|
        invariant rs == old(resources) && NoDup(rs)
        invariant Valid() && resources == rs[j..]
        invariant forall k :: 0 <= k < j ==> rs[k].destroyed
      {
        var r := rs[j];
        assert r in resources && r in old(resources);
        DestroyManagerResource(r);
        j := j + 1;
      }
    }
  }

  /**
   * The reading part of `set_gamma`: allocate a table of `ramp_size * 3`
   * samples, fill it with one `read`, and cut it into the three channels.
   * Nothing comes back on a read error or when fewer bytes than the table
   * holds were available.
   */
  method ReadGamma(fd: Fd, rampSize: uint32) returns (g: Option<Gamma>)
    requires rampSize <= MaxRampSize
    ensures g.None? <==> fd.stream.contents.None? || |fd.stream.contents.value| < 3 * rampSize as nat
    ensures g.Some? ==> g.value == SplitChannels(fd.stream.contents.value[..3 * rampSize], rampSize as nat)
  {
    var tableSize := TableSize(rampSize);
    var table := new uint16[tableSize / SampleBytes];
    var nRead := fd.Read(table);
    if nRead == -1 || nRead != tableSize {
      return None;
    }
    assert table[..] == fd.stream.contents.value[..3 * rampSize];
    return Some(SplitChannels(table[..], rampSize as nat));
  }

  /** `wlr_gamma_control_manager_v1_destroy`: NULL is a no-op. */
  method DestroyManager(m: Manager?)
    requires m != null ==> m.Valid() && !m.destroyed
    modifies if m == null then {} else {m as object} + m.Footprint()
    ensures m != null ==> m.destroyed && m.controls == [] && m.resources == []
    ensures m != null ==> forall c :: c in old(m.controls) ==>
      c.TornDownFrom(old(c.output.State())) && c.resource.events == old(c.resource.events)
    ensures m != null ==> forall r :: r in old(m.resources) ==> r.destroyed
  {
    if m == null {
      return;
    }
    m.Destroy();
  }

  /**
   * Three `get_gamma_control` requests for one output, as written: the
   * second evicts the first but is itself left live and untracked, the
   * third is tracked, and two live controls now drive the same output.
   */
  method SupersedeLeavesTwoLiveControls() returns (m: Manager, second: ControlResource, third: ControlResource)
    ensures second.userData != null && third.userData != null
    ensures second.userData != third.userData && second.userData.output == third.userData.output
    ensures second.userData.Live() && third.userData.Live()
    ensures second.userData !in m.controls && third.userData in m.controls
    ensures !m.Exclusive(third.userData.output)
  {
    m := new Manager();
    var o := new Output(1, true, g => true);
    var first;
    ghost var a, b, c;
    first, a := m.GetGammaControl(o);
    second, b := m.GetGammaControl(o);
    third, c := m.GetGammaControl(o);
    assert b in o.destroyListeners && b !in m.TrackedFor(o);
  }

  /**
   * The same three requests under `GetGammaControlLatestWins`: each request
   * evicts the previous control, so only the third is live and the output
   * stays exclusive.
   */
  method LatestWinsLeavesOneLiveControl() returns (m: Manager, second: ControlResource, third: ControlResource)
    ensures second.userData == null && second.events == [GammaSize(1), Failed]
    ensures third.userData != null && third.userData.Live() && third.userData in m.controls
    ensures m.Exclusive(third.userData.output) && third.userData.output.destroyListeners == {third.userData}
  {
    var o;
    m, o, second := TwoLatestWinsRequests();
    ghost var b := second.userData;
    third, b := m.GetGammaControlLatestWins(o);
  }

  /** The first two requests of that scenario: the second control has evicted the first. */
  method TwoLatestWinsRequests() returns (m: Manager, o: Output, second: ControlResource)
    ensures fresh(m) && fresh(o) && fresh(second) && second.userData != null && fresh(second.userData)
    ensures m.Valid() && !m.destroyed && o.Valid() && o.hasSetGamma && o.gammaSize == 1
    ensures second.userData.output == o && second.userData.resource == second
    ensures m.TrackedFor(o) == {second.userData} && o.destroyListeners == {second.userData}
    ensures second.events == [GammaSize(1)]
  {
    m := new Manager();
    o := new Output(1, true, g => true);
    var first;
    ghost var a, b;
    first, a := m.GetGammaControlLatestWins(o);
    second, b := m.GetGammaControlLatestWins(o);
  }
}
