# wlr-gamma-control-unstable-v1 manager, modelled in Dafny

wlroots implements the `wlr-gamma-control-unstable-v1` protocol in
`types/wlr_gamma_control_v1.c`. Through it a client can set an output's
gamma ramps. The client binds the manager global and asks it for a control
on an output. It then sends `set_gamma` with a file descriptor holding
three 16-bit ramps (red, green, blue) of the output's gamma size.

The manager keeps two intrusive lists: the tracked controls, at most one
per output, and the bound manager resources. Each control belongs to one
output and one protocol resource. It listens on the output's destroy
signal. Destroying it always asks the output to go back to passthrough,
and the code ignores whether the output accepted that.

The model has three modules:

- `IntrusiveList` (`lists.dfy`): a `wl_list` is a sequence with no
  duplicates. `Remove` is `wl_list_remove`; it leaves a list alone when the
  node is not in it, which is what happens to a link that was only
  `wl_list_init`ed.
- `Ramp` (`ramp.dfy`): the pure part of `set_gamma`.
  - `TableSize` is the byte count the client must send. `ramp_size * 3`
    wraps in `uint32_t` and the factor 2 is applied after.
  - `SplitChannels` cuts the table into the red, green and blue blocks.
  - `Stream` describes the client's fd as the handler sees it.
  - `SetGammaOutcomeOf` is the reference for which exit the handler takes.
- `GammaControlV1` (`gamma_control.dfy`): the heap objects as classes.
  These are the output, the fd, a control's resource, a manager resource,
  the control and the manager. Each C handler is a method that changes
  their fields in place:
  - `Output.calls` logs every `wlr_output_set_gamma` call, accepted or
    not. `OutputState` is the output's ramp, log and destroy listeners
    taken together, and `OutputState.AfterReset` is what
    `gamma_control_destroy` leaves: one more passthrough call, the ramp
    reset only if the output took it, and the control no longer listening;
  - `Manager.Valid()` is the tracked-list invariant;
  - `GammaControl.Live()`, `Attached()`, `TornDown()` and `TornDownFrom()`
    are the lifecycle states of a control;
  - `ControlResource.Valid()` says a resource is inert or points at a live
    control;
  - `Manager.Exclusive(output)` says every control listening on the output
    is tracked, so at most one control drives it.

`get_gamma_control` is modelled as the code is written. When the output
already has a tracked control, that control is sent `failed` and destroyed
and the function returns. The new control stays attached to its resource
and subscribed to the output's destroy signal, but it is not tracked and
gets no `gamma_size`. So after such a request no control of that output is
tracked, while the new control can still set the output's gamma. The next
request on that output finds nothing tracked and tracks a third control,
so two live controls then drive one output (see "## Findings").
`GetGammaControlLatestWins` is the corrected variant, in which the new
control takes the evicted one's place.

## Model

| member | source | states |
|---|---|---|
| IntrusiveList.Remove | types/wlr_gamma_control_v1.c:26-27 | `wl_list_remove`: the result holds exactly the other nodes; a node that is not linked leaves the list unchanged; removing from a duplicate-free list keeps it duplicate-free and one shorter; removing the head gives the tail |
| IntrusiveList.RemoveCutsOut | types/wlr_gamma_control_v1.c:26-27 | removing a linked node cuts it out where it stands: the result is the list before it followed by the list after it, so the other nodes keep their order |
| IntrusiveList.ConsNoDup | types/wlr_gamma_control_v1.c:186 | `wl_list_insert` at the head of a list that does not hold the node keeps the list free of duplicates |
| Ramp.TableSize | types/wlr_gamma_control_v1.c:67-68 | the expected byte count is even and its sample count fits in 32 bits; it is `6 * ramp_size` up to 0x55555555 and strictly less above that, because of the 32-bit wrap |
| Ramp.TableSizeWraps | types/wlr_gamma_control_v1.c:68 | a ramp size of 0x55555556 asks for only 4 bytes |
| Ramp.SplitChannels | types/wlr_gamma_control_v1.c:103-105 | `r`, `g` and `b` are consecutive blocks of `ramp_size` samples whose concatenation is the table, with sample `i` of each channel at offset `i`, `n + i` and `2n + i` |
| Ramp.SetGammaOutcomeOf | types/wlr_gamma_control_v1.c:67-111 | the protocol error happens exactly when a known length differs from the table size; an apply or a rejection needs a full read and carries the table in input order; each channel of an applied or rejected ramp holds `ramp_size` samples; a full read is applied exactly when the output's backend accepts it; past the size check, `failed` for flags comes exactly when an `fcntl` fails, and `failed` for the read exactly when, past that, the read errs or is short |
| Ramp.DeclaredShortByOneIsInvalid | types/wlr_gamma_control_v1.c:70-77 | a length one byte short of the table is the protocol error |
| Ramp.UnknownLengthShortReadFails | types/wlr_gamma_control_v1.c:70-101 | when `lseek` fails the size check is skipped, and a short read ends in `failed` |
| Ramp.ExactStreamAppliedInOrder | types/wlr_gamma_control_v1.c:97-107 | an exact-size stream that the output accepts is applied with red, green and blue taken in input order |
| GammaControlV1.Output.SetGamma | types/wlr_gamma_control_v1.c:107 | every call to `wlr_output_set_gamma` is appended to the output's call log; it succeeds exactly when the output supports gamma and accepts the ramp, and only then does the recorded ramp change |
| GammaControlV1.Fd.Read | types/wlr_gamma_control_v1.c:97 | `read` returns -1 on error; otherwise it returns the bytes of the samples available, at most the table's size, and those samples are copied in order |
| GammaControlV1.Fd.Close | types/wlr_gamma_control_v1.c:119 | `close(fd)` leaves the descriptor closed |
| GammaControlV1.ReadGamma | types/wlr_gamma_control_v1.c:90-105 | after allocating and reading the table, nothing is returned exactly on a read error or short read; otherwise the result is the split of the stream's first `3 * ramp_size` samples |
| GammaControlV1.Manager.constructor | types/wlr_gamma_control_v1.c:256-257 | a new manager has both lists empty and satisfies the tracked-list invariant |
| GammaControlV1.Manager.ExclusiveMeansOneController | types/wlr_gamma_control_v1.c:176-186 | on an exclusive output any two attached controls are the same control, and it is the tracked one |
| GammaControlV1.Manager.DestroyControl | types/wlr_gamma_control_v1.c:20-29 | NULL changes nothing. Otherwise the output gets exactly one more `set_gamma` call, for passthrough, whatever its result; its ramp becomes passthrough only if the output took it; the control alone stops listening on the output; the resource's user data is cleared; the control leaves the tracked list and is freed; the invariant holds |
| GammaControlV1.Manager.SendFailed | types/wlr_gamma_control_v1.c:31-35 | `failed` is appended to the control's events, then the control is destroyed as above |
| GammaControlV1.Manager.HandleResourceDestroy | types/wlr_gamma_control_v1.c:46-50 | an inert resource changes nothing; otherwise its control is destroyed as above |
| GammaControlV1.Manager.DestroyControlResource | types/wlr_gamma_control_v1.c:15-18 | `wl_resource_destroy` runs the destroy handler; the control it pointed at, if any, ends torn down with its output reset as above, and the resource is gone |
| GammaControlV1.Manager.HandleOutputDestroy | types/wlr_gamma_control_v1.c:52-57 | the output's destroy listener destroys its control as above, which is no longer tracked |
| GammaControlV1.Manager.FindTracked | types/wlr_gamma_control_v1.c:176-183 | the list walk finds a tracked control of the output exactly when one exists |
| GammaControlV1.Manager.GetGammaControl | types/wlr_gamma_control_v1.c:137-189 | three outcomes. An unsupported output: the new control gets `failed` and is destroyed untracked, with one passthrough call logged. An output with a tracked control: that control gets `failed` and is destroyed, so the output gets a passthrough call and stops hearing from it; the new one stays live, listening, untracked and without `gamma_size`, and no control of the output is tracked. Otherwise: the new control is tracked at the head and sent the gamma size, and the output's ramp and log are untouched. In every case at most one control per output stays tracked |
| GammaControlV1.Manager.GetGammaControlLatestWins | types/wlr_gamma_control_v1.c:176-186 | the corrected request. An unsupported output: the new control gets `failed` and is destroyed untracked, with one passthrough call logged and the ramp kept. On a supporting output any tracked control is sent `failed` and destroyed; the new tracked list is the new control at the head of the old list without the evicted one, the output gets one passthrough call, and its ramp becomes passthrough only if the output took it. With nothing to evict the new control goes at the head and the output's ramp and log are untouched. Either way the new control is the only tracked one of its output and is sent the gamma size. An exclusive output stays exclusive, with the new control as its only listener |
| GammaControlV1.Manager.Evict | types/wlr_gamma_control_v1.c:178-180 | the tracked control is sent `failed` and destroyed as above, and its output is left with no tracked control |
| GammaControlV1.Manager.Announce | types/wlr_gamma_control_v1.c:185-188 | a live control of an untracked output is tracked at the head and its only event is the gamma size |
| GammaControlV1.Manager.CreateControl | types/wlr_gamma_control_v1.c:144-168 | a fresh control and resource that point at each other; the control listens on the output's destroy signal and is not tracked |
| GammaControlV1.Manager.Track | types/wlr_gamma_control_v1.c:185-186 | inserting a control for an untracked output puts it at the head and keeps one control per output |
| GammaControlV1.Manager.HandleSetGamma | types/wlr_gamma_control_v1.c:59-120 | an inert resource only closes the fd, leaving its flags alone. Otherwise the exit is the one `SetGammaOutcomeOf` names. A size mismatch posts `invalid_gamma` and leaves the control and the output's ramp, log and listeners untouched. A flags failure or a short read sends `failed` and destroys the control, which logs one passthrough call on the output. A rejected ramp logs that ramp and then the passthrough reset. A full read that is accepted logs and installs the ramp and leaves the listeners alone. The fd is closed on every exit except success, and it is made non-blocking once `fcntl` has succeeded. The table is freed exactly when it was allocated |
| GammaControlV1.Manager.SetGammaOn | types/wlr_gamma_control_v1.c:65-120 | the handler past the user-data check, for a live control, with the same exits and the same effects on the control, the output and the fd |
| GammaControlV1.Manager.ApplyGamma | types/wlr_gamma_control_v1.c:107-111 | the ramp is logged on the output; an accepted one becomes the output's and the control stays live with the listeners untouched; a refused one sends `failed` and destroys the control, which logs the passthrough reset after it |
| GammaControlV1.Manager.Bind | types/wlr_gamma_control_v1.c:201-214 | a new manager resource is inserted at the head of `resources` |
| GammaControlV1.Manager.DestroyManagerResource | types/wlr_gamma_control_v1.c:196-199 | a manager resource's destroy handler unlinks it from `resources` |
| GammaControlV1.Manager.Destroy | types/wlr_gamma_control_v1.c:221-231 | every tracked control ends torn down without new events. Its output gets one passthrough call, and of its listeners only that control is dropped; every bound resource is destroyed; both lists end empty before the global goes |
| GammaControlV1.Manager.DestroyTrackedControls | types/wlr_gamma_control_v1.c:222-225 | the safe walk destroys each tracked control's resource. Every one ends torn down, with no new events, and its output is reset from its state before the walk; the list ends empty |
| GammaControlV1.Manager.DestroyFirstControl | types/wlr_gamma_control_v1.c:224 | one step of that walk tears down the head control and drops it from the list. The already torn-down controls stay as they were, and the outputs of the remaining controls keep their state from before the walk |
| GammaControlV1.Manager.DestroyHead | types/wlr_gamma_control_v1.c:224 | `wl_resource_destroy` on the head control's resource tears it down and resets its output from its state before the walk; the other outputs are untouched |
| GammaControlV1.Manager.DestroyBoundResources | types/wlr_gamma_control_v1.c:226-229 | the safe walk destroys every bound manager resource and leaves the list empty |
| GammaControlV1.DestroyManager | types/wlr_gamma_control_v1.c:216-220 | NULL is a no-op; otherwise the manager is destroyed as above |
| GammaControlV1.SupersedeLeavesTwoLiveControls | types/wlr_gamma_control_v1.c:176-188 | three requests on one supporting output leave the second and the third control both live on that output, with only the third tracked, so the output is not exclusive |
| GammaControlV1.LatestWinsLeavesOneLiveControl | types/wlr_gamma_control_v1.c:176-188 | the same three requests under the corrected request leave the second control failed and detached, and the third as the only control of its output |
| GammaControlV1.TwoLatestWinsRequests | types/wlr_gamma_control_v1.c:176-188 | after two corrected requests the second control is the only tracked control and the only listener of the output, and was told the gamma size |

## Left out

- Wayland object machinery is not modelled. This means `wl_resource_create`, `wl_global_create`, `wl_signal_add`, the resource implementation tables and the `wl_resource_instance_of` assertions. Resources are objects with a user-data field and an event log.
- The display-destroy listener, `handle_display_destroy` and `wlr_gamma_control_manager_v1_create`'s global registration (types/wlr_gamma_control_v1.c:234-263) are not modelled. The constructor only sets up the two empty lists.
- The fd syscalls are inputs, because they are I/O. `lseek` gives an optional length. `fcntl` gives two success flags. `read` gives an optional sample sequence. The rewind at line 78 is implicit, since every read starts at the first sample.
- Bytes are not modelled: the stream is a sequence of `uint16_t` samples, with no byte-level reinterpretation or host endianness (line 97). A read of an odd number of bytes cannot be expressed.
- Allocation failures are not modelled: `calloc`, `malloc` and `wl_resource_create` returning NULL, and `post_no_memory`.
- `wlr_output_set_gamma` is an accept/reject oracle plus the recorded ramp and a call log. Its hardware effect is not modelled. Whether the backend takes the passthrough reset is left to the oracle, as the code ignores the result; only the call itself is promised.
- Only this protocol's listener on the output's destroy signal is modelled. The output's own teardown and its other listeners are not.
- TableSize: `size_t` is taken to be 64 bits, so the `* sizeof(uint16_t)` at line 68 never wraps. With a 32-bit `size_t` it would wrap again for ramp sizes of 0x2AAAAAAB or more, which `Output.Valid()` still admits.
- Ramp sizes above 0x55555555 are not modelled. For them `ramp_size * 3` wraps, and the table would be smaller than the three channels the handler reads from it. `Output.Valid()` bounds the gamma size there; `TableSize` and `TableSizeWraps` still state the wrap itself.
- `GammaControlV1.Manager.HandleSetGamma`: the release of the table is ghost bookkeeping (`tableAllocated`, `tableFreed`). The allocation itself happens in `ReadGamma`.
- The destroyed and freed flags are ghost or plain booleans. Use-after-free is ruled out by preconditions, not by a memory model.

## Findings

| source | as written | input that shows it | evidently intended | confidence | as-written member | corrected member |
|---|---|---|---|---|---|---|
| types/wlr_gamma_control_v1.c:176-183 | after sending `failed` to the tracked control of the output and destroying it, the request returns, leaving the new control live and listening but untracked | three `get_gamma_control` requests on one output that supports gamma: the third finds nothing tracked and is tracked, while the second is still live | the new control takes the evicted one's place in the tracked list and is told the gamma size, so one control drives each output | medium, not executed | GammaControlV1.SupersedeLeavesTwoLiveControls | GammaControlV1.Manager.GetGammaControlLatestWins |
