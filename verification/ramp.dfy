/**
 * The pure part of `set_gamma`: how many bytes the client must send for an
 * output, how the received table is cut into the red, green and blue ramps,
 * and which of the handler's exits a given stream leads to.
 */
module Ramp {

  /** A gamma sample, `uint16_t`. */
  newtype uint16 = x: int | 0 <= x < 0x1_0000

  /** `uint32_t`, the type of an output's gamma size. */
  newtype uint32 = x: int | 0 <= x < 0x1_0000_0000

  const U32Modulus: int := 0x1_0000_0000

  /** `sizeof(uint16_t)`: bytes per sample. */
  const SampleBytes: nat := 2

  /**
   * The largest ramp size for which `ramp_size * 3` does not wrap in 32-bit
   * unsigned arithmetic; outputs of this model report at most this size.
   */
  const MaxRampSize: uint32 := 0x5555_5555

  datatype Option<T> = None | Some(value: T)

  /**
   * What an output is set to: `size` entries per channel and the three
   * tables. Passthrough is size 0 with no tables.
   */
  datatype Gamma = Gamma(size: nat, red: seq<uint16>, green: seq<uint16>, blue: seq<uint16>)

  const Passthrough := Gamma(0, [], [], [])

  /**
   * `table_size = ramp_size * 3 * sizeof(uint16_t)`: the product
   * `ramp_size * 3` is taken in `uint32_t` and wraps, the factor 2 is
   * applied in `size_t` afterwards.
   */
  function TableSize(rampSize: uint32): (bytes: nat)
    ensures bytes % SampleBytes == 0 && bytes / SampleBytes < U32Modulus
    ensures rampSize <= MaxRampSize ==> bytes == 3 * rampSize as nat * SampleBytes
    ensures MaxRampSize < rampSize ==> bytes < 3 * rampSize as nat * SampleBytes
  {
    (rampSize as int * 3) % U32Modulus * SampleBytes
  }

  /** The wrap is real: a ramp size of 0x55555556 asks for a 4-byte table. */
  lemma TableSizeWraps()
    ensures TableSize(0x5555_5556) == 4
    ensures TableSize(0x5555_5556) < 3 * 0x5555_5556 * SampleBytes
  {
  }

  /**
   * `r = table`, `g = table + ramp_size`, `b = table + 2 * ramp_size`:
   * three consecutive blocks, red first, with nothing reordered or dropped.
   */
  function SplitChannels(table: seq<uint16>, rampSize: nat): (g: Gamma)
    requires |table| == 3 * rampSize
    ensures g.size == rampSize
    ensures |g.red| == rampSize && |g.green| == rampSize && |g.blue| == rampSize
    ensures g.red + g.green + g.blue == table
    ensures forall i :: 0 <= i < rampSize ==>
      g.red[i] == table[i] && g.green[i] == table[rampSize + i] && g.blue[i] == table[2 * rampSize + i]
  {
    var g := Gamma(rampSize, table[..rampSize], table[rampSize..2 * rampSize], table[2 * rampSize..]);
    assert g.red + g.green + g.blue == table by {
      assert table == table[..rampSize] + table[rampSize..2 * rampSize] + table[2 * rampSize..];
    }
    g
  }

  /**
   * The client's file descriptor as far as `set_gamma` sees it:
   * what `lseek(fd, 0, SEEK_END)` reports (None when it returns -1),
   * whether `fcntl(F_GETFL)` and `fcntl(F_SETFL, ... | O_NONBLOCK)` succeed,
   * and the samples a single `read` can obtain (None when it returns -1).
   */
  datatype Stream = Stream(seekSize: Option<nat>, getFlagsOk: bool, setFlagsOk: bool,
                           contents: Option<seq<uint16>>)

  /** The exits of `gamma_control_handle_set_gamma` for a control that is still attached. */
  datatype SetGammaOutcome =
    | InvalidSize          // declared length differs: protocol error, control untouched
    | FlagsFailed          // F_GETFL or F_SETFL failed: `failed`, control destroyed
    | ShortRead            // read error or fewer bytes than the table: `failed`, control destroyed
    | Rejected(gamma: Gamma) // the output refused the ramp: `failed`, control destroyed
    | Applied(gamma: Gamma)  // the ramp is now the output's
  {
    /** The exits that send `failed` and destroy the control. */
    predicate IsSoftFailure() { FlagsFailed? || ShortRead? || Rejected? }
  }

  /**
   * Which exit `set_gamma` takes, given the output's ramp size, the stream,
   * and which ramps the output's backend accepts.
   */
  function SetGammaOutcomeOf(rampSize: uint32, s: Stream, accepts: Gamma -> bool): (o: SetGammaOutcome)
    requires rampSize <= MaxRampSize
    ensures o == InvalidSize <==> s.seekSize.Some? && s.seekSize.value != TableSize(rampSize)
    ensures (o.Applied? || o.Rejected?) ==>
      s.contents.Some? && |s.contents.value| >= 3 * rampSize as nat &&
      o.gamma.size == rampSize as nat &&
      |o.gamma.red| == |o.gamma.green| == |o.gamma.blue| == rampSize as nat &&
      o.gamma.red + o.gamma.green + o.gamma.blue == s.contents.value[..3 * rampSize]
    ensures o.Applied? <==> (o.Applied? || o.Rejected?) && accepts(o.gamma)
    ensures o == FlagsFailed <==>
      o != InvalidSize && !(s.getFlagsOk && s.setFlagsOk)
    ensures o == ShortRead <==>
      o != InvalidSize && s.getFlagsOk && s.setFlagsOk &&
      (s.contents.None? || |s.contents.value| < 3 * rampSize as nat)
  {
    var tableSize := TableSize(rampSize);
    if s.seekSize.Some? && s.seekSize.value != tableSize then InvalidSize
    else if !s.getFlagsOk || !s.setFlagsOk then FlagsFailed
    else if s.contents.None? || |s.contents.value| < 3 * rampSize as nat then ShortRead
    else
      var gamma := SplitChannels(s.contents.value[..3 * rampSize], rampSize as nat);
      if accepts(gamma) then Applied(gamma) else Rejected(gamma)
  }

  /** A declared length one byte short of the table is a protocol error, never an apply. */
  lemma DeclaredShortByOneIsInvalid(rampSize: uint32, s: Stream, accepts: Gamma -> bool)
    requires 0 < rampSize <= MaxRampSize
    requires s.seekSize == Some(TableSize(rampSize) - 1)
    ensures SetGammaOutcomeOf(rampSize, s, accepts) == InvalidSize
  {
  }

  /**
   * A stream that cannot report its length and delivers fewer samples than
   * the table holds ends in `failed`, never in the protocol error.
   */
  lemma UnknownLengthShortReadFails(rampSize: uint32, s: Stream, accepts: Gamma -> bool)
    requires rampSize <= MaxRampSize
    requires s.seekSize.None? && s.getFlagsOk && s.setFlagsOk
    requires s.contents.Some? && |s.contents.value| < 3 * rampSize as nat
    ensures SetGammaOutcomeOf(rampSize, s, accepts) == ShortRead
  {
  }

  /**
   * A stream of exactly the table's size on an output that accepts the ramp
   * is applied with its three blocks as red, green and blue, in input order.
   */
  lemma ExactStreamAppliedInOrder(rampSize: uint32, s: Stream, accepts: Gamma -> bool)
    requires rampSize <= MaxRampSize
    requires s.seekSize.None? || s.seekSize == Some(TableSize(rampSize))
    requires s.getFlagsOk && s.setFlagsOk
    requires s.contents.Some? && |s.contents.value| == 3 * rampSize as nat
    requires accepts(SplitChannels(s.contents.value, rampSize as nat))
    ensures var o := SetGammaOutcomeOf(rampSize, s, accepts);
      o.Applied? &&
      o.gamma.red == s.contents.value[..rampSize] &&
      o.gamma.green == s.contents.value[rampSize..2 * rampSize] &&
      o.gamma.blue == s.contents.value[2 * rampSize..]
  {
    assert s.contents.value[..3 * rampSize] == s.contents.value;
  }
}
