/** Values that travel with the pages of a stream. */
module StreamTypes {
  const MAXCHANS := 2

  /** A timecode is an integer frame counter or invalid; its packed form is not modelled. */
  datatype Timecode = Invalid | At(frame: int) {
    function Inc(): Timecode { if At? then At(frame + 1) else this }
    function Dec(): Timecode { if At? then At(frame - 1) else this }
  }

  datatype FrameTime = FrameTime(id: int, line: int, timer: int, tcg: Timecode, priv: int)

  datatype Meta = Meta(timing: FrameTime, flags: int, inc: int, chan: int, audioptr: int, priv: int,
                       tcInternal: Timecode, tcSdi1: Timecode, tcSdi2: Timecode, tcLtc: Timecode)

  const ZERO_TIME := FrameTime(0, 0, 0, Invalid, 0)
  const ZERO_META := Meta(ZERO_TIME, 0, 0, 0, 0, 0, Invalid, Invalid, Invalid, Invalid)

  /** The frame id and timecode generator of a card. */
  datatype Clock = Clock(frameId: int, time: FrameTime, tcg: Timecode, tcgRunning: bool)

  /** What the frame handler reads from the card registers and the LTC board. */
  datatype FrameIO = FrameIO(field: bool, line: int, timer: int, aptr: int,
                             sdi1: Timecode, sdi2: Timecode, ltc: Timecode)

  // ----- C integers

  function ToU32(v: int): int { v % 0x1_0000_0000 }

  function ToI32(v: int): int {
    var u := v % 0x1_0000_0000;
    if u < 0x8000_0000 then u else u - 0x1_0000_0000
  }

  /** Division that truncates toward zero. */
  function CDiv(a: int, b: int): int
    requires 0 < b
  {
    if 0 <= a then a / b else -((-a) / b)
  }
}
