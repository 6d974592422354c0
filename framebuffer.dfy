/** The second goldfish framebuffer (`goldfish_fbs2`): a 16-bit RGB565
    scan-out buffer whose visible window the emulator moves on request.

    The driver validates screen geometry for the framebuffer core, packs
    palette entries, pushes a new rotation to the device and moves the
    scan-out base; the device acknowledges a base move with an interrupt
    that bumps a counter. All `fb_var_screeninfo` fields are 32-bit
    unsigned, so every product the driver forms wraps modulo 2^32. */
module GoldfishFb {
  import opened Mmio

  // Register offsets.
  const GET_WIDTH: nat := 0x00
  const GET_HEIGHT: nat := 0x04
  const INT_STATUS: nat := 0x08
  const INT_ENABLE: nat := 0x0c
  const SET_BASE: nat := 0x10
  const SET_ROTATION: nat := 0x14
  const SET_BLANK: nat := 0x18
  const GET_PHYS_WIDTH: nat := 0x1c
  const GET_PHYS_HEIGHT: nat := 0x20

  // Bits of INT_STATUS and INT_ENABLE.
  const INT_VSYNC: bv32 := 1
  const INT_BASE_UPDATE_DONE: bv32 := 2

  /** Entries of the pseudo palette. */
  const PALETTE_SIZE: nat := 16

  /** Where a colour channel sits in a pixel: `length` bits from bit `offset`. */
  datatype Bitfield = Bitfield(offset: bv32, length: bv32)

  /** The part of `fb_var_screeninfo` the driver reads or sets. */
  datatype ScreenInfo = ScreenInfo(
    xres: u32, yres: u32,                  // visible resolution
    xresVirtual: u32, yresVirtual: u32,    // resolution of the whole buffer
    xoffset: u32, yoffset: u32,            // visible window inside the buffer
    bitsPerPixel: u32, grayscale: u32, rotate: u32,
    red: Bitfield, green: Bitfield, blue: Bitfield, transp: Bitfield)

  // The RGB565 layout the probe declares; `transp` stays zeroed.
  const RED_565 := Bitfield(11, 5)
  const GREEN_565 := Bitfield(5, 6)
  const BLUE_565 := Bitfield(0, 5)
  const NO_TRANSP := Bitfield(0, 0)

  /** A product or sum of `u32` fields, truncated as the C arithmetic does. */
  function Wrap(x: nat): (v: u32)
    ensures x < U32_MODULUS ==> v as int == x
  {
    (x % U32_MODULUS) as u32
  }

  /** `2 * x` in 32-bit unsigned arithmetic. */
  function Twice(x: u32): u32 {
    Wrap(2 * x as int)
  }

  // ---------------------------------------------------------------------
  // Palette entries.

  /** The bits a channel occupies in a pixel. */
  function FieldMask(bf: Bitfield): bv32
    requires bf.length <= 16 && bf.offset < 32
  {
    Ones(bf.length) << bf.offset
  }

  /** `convert_bitfield`: the top `length` bits of the 16-bit channel value
      `val`, placed at the channel's offset. */
  function ConvertBitfield(val: bv32, bf: Bitfield): (r: bv32)
    requires bf.length <= 16 && bf.offset < 32
    ensures bf.length == 0 ==> r == 0
  {
    ((val >> (16 - bf.length)) & Ones(bf.length)) << bf.offset
  }

  /** For each channel layout the probe declares, a converted channel value
      stays inside the channel's field. */
  lemma ConvertStaysInField(val: bv32, bf: Bitfield)
    requires bf == RED_565 || bf == GREEN_565 || bf == BLUE_565 || bf == NO_TRANSP
    ensures ConvertBitfield(val, bf) & !FieldMask(bf) == 0
  {
    if bf == RED_565 {
      assert ConvertBitfield(val, bf) == ((val >> 11) & 0x1f) << 11;
    } else if bf == GREEN_565 {
      assert ConvertBitfield(val, bf) == ((val >> 10) & 0x3f) << 5;
    } else if bf == BLUE_565 {
      assert ConvertBitfield(val, bf) == (val >> 11) & 0x1f;
    }
  }

  /** `length` low one bits. */
  function Ones(length: bv32): bv32
    requires length <= 16
  {
    ((1 as bv32) << length) - 1
  }

  /** `setcolreg`'s palette entry: the four converted channels ORed together. */
  function PaletteEntry(v: ScreenInfo, red: bv32, green: bv32, blue: bv32, transp: bv32): bv32
    requires BitfieldsDefined(v)
  {
    ConvertBitfield(transp, v.transp) | ConvertBitfield(blue, v.blue)
    | ConvertBitfield(green, v.green) | ConvertBitfield(red, v.red)
  }

  /** Channel layouts for which `convert_bitfield`'s shifts are defined in C. */
  predicate BitfieldsDefined(v: ScreenInfo) {
    && v.red.length <= 16 && v.red.offset < 32
    && v.green.length <= 16 && v.green.offset < 32
    && v.blue.length <= 16 && v.blue.offset < 32
    && v.transp.length <= 16 && v.transp.offset < 32
  }

  /** For the layout the probe declares, a palette entry is the RGB565
      pixel of the colour: the top 5 bits of red, 6 of green and 5 of blue. */
  lemma PaletteEntryIsRgb565(v: ScreenInfo, red: bv32, green: bv32, blue: bv32, transp: bv32)
    requires v.red == RED_565 && v.green == GREEN_565 && v.blue == BLUE_565 && v.transp == NO_TRANSP
    requires red <= 0xffff && green <= 0xffff && blue <= 0xffff
    ensures PaletteEntry(v, red, green, blue, transp)
            == (red & 0xf800) | ((green & 0xfc00) >> 5) | (blue >> 11)
  {
  }

  /** Each channel of an RGB565 palette entry can be read back out of it:
      its field holds the top bits of the 16-bit channel value. */
  lemma Rgb565RoundTrip(v: ScreenInfo, red: bv32, green: bv32, blue: bv32, transp: bv32)
    requires v.red == RED_565 && v.green == GREEN_565 && v.blue == BLUE_565 && v.transp == NO_TRANSP
    requires red <= 0xffff && green <= 0xffff && blue <= 0xffff
    ensures var e := PaletteEntry(v, red, green, blue, transp);
            && (e >> 11) & Ones(5) == red >> 11
            && (e >> 5) & Ones(6) == green >> 10
            && e & Ones(5) == blue >> 11
            && e <= 0xffff
  {
  }

  // ---------------------------------------------------------------------
  // Geometry.

  /** A width and a height. */
  datatype Size = Size(width: u32, height: u32)

  /** Whether `v` turns the display by an odd number of quarter turns
      relative to `cur`. */
  predicate Turned(v: ScreenInfo, cur: ScreenInfo) {
    v.rotate % 2 != cur.rotate % 2
  }

  /** The visible size the current screen has when seen turned or not. */
  function Seen(cur: ScreenInfo, turned: bool): Size
  {
    if turned then Size(cur.yres, cur.xres) else Size(cur.xres, cur.yres)
  }

  /** `v` shows a screen of size `s` in a buffer exactly one screen wide
      and between one and two screens tall. */
  predicate Shows(v: ScreenInfo, s: Size) {
    && v.xres == s.width && v.yres == s.height
    && v.xresVirtual == s.width
    && s.height <= v.yresVirtual <= Twice(s.height)
  }

  /** `v` keeps the pixel format and horizontal pan of `cur`. */
  predicate SameFormat(v: ScreenInfo, cur: ScreenInfo) {
    v.xoffset == cur.xoffset && v.bitsPerPixel == cur.bitsPerPixel && v.grayscale == cur.grayscale
  }

  /** `check_var`: a requested screen is accepted when it shows the current
      screen (with width and height exchanged if it is turned a quarter
      turn) and keeps its format; otherwise -EINVAL. */
  function CheckVar(v: ScreenInfo, cur: ScreenInfo): (r: int)
    ensures r == 0 || r == -EINVAL
    ensures r == 0 <==> Shows(v, Seen(cur, Turned(v, cur))) && SameFormat(v, cur)
  {
    if v.rotate % 2 != cur.rotate % 2 &&
       (v.xres != cur.yres || v.yres != cur.xres || v.xresVirtual != cur.yres
        || v.yresVirtual > Twice(cur.xres) || v.yresVirtual < cur.xres)
    then -EINVAL
    else if v.rotate % 2 == cur.rotate % 2 &&
       (v.xres != cur.xres || v.yres != cur.yres || v.xresVirtual != cur.xres
        || v.yresVirtual > Twice(cur.yres) || v.yresVirtual < cur.yres)
    then -EINVAL
    else if v.xoffset != cur.xoffset || v.bitsPerPixel != cur.bitsPerPixel || v.grayscale != cur.grayscale
    then -EINVAL
    else 0
  }

  /** The screen the probe sets up for a `width` x `height` display. */
  function ProbeVar(width: u32, height: u32): (v: ScreenInfo)
  {
    ScreenInfo(width, height, width, Twice(height), 0, 0, 16, 0, 0,
               RED_565, GREEN_565, BLUE_565, NO_TRANSP)
  }

  /** `width * height * 2 * 2` in a 32-bit `size_t`: the allocation for two
      screens of 16-bit pixels. */
  function FrameSize(width: u32, height: u32): nat {
    Wrap(width as int * height as int * 4) as nat
  }

  /** The probe hands its own screen to the framebuffer core, which checks
      it against itself: that check passes whenever twice the height does
      not wrap. */
  lemma ProbeVarAccepted(width: u32, height: u32)
    requires 2 * height as int < U32_MODULUS
    ensures CheckVar(ProbeVar(width, height), ProbeVar(width, height)) == 0
  {
  }

  /** A quarter turn can be undone: once `v` has been accepted turned
      against a well-formed current screen `cur`, `cur` is accepted turned
      against `v`. */
  lemma RotateBack(v: ScreenInfo, cur: ScreenInfo)
    requires Shows(cur, Size(cur.xres, cur.yres))
    requires Turned(v, cur) && CheckVar(v, cur) == 0
    ensures Turned(cur, v) && CheckVar(cur, v) == 0
  {
  }

  /** Whatever is accepted keeps the current pixel format. */
  lemma AcceptedKeepsFormat(v: ScreenInfo, cur: ScreenInfo)
    requires CheckVar(v, cur) == 0
    ensures v.bitsPerPixel == cur.bitsPerPixel && v.grayscale == cur.grayscale && v.xoffset == cur.xoffset
  {
  }

  // ---------------------------------------------------------------------
  // Panning.

  /** The scan-out address `pan_display` hands the device: line `yoffset`
      of a buffer at `smemStart` whose lines are `xres` 16-bit pixels. */
  function ScanoutAddress(smemStart: nat, xres: u32, yoffset: u32): u32 {
    Wrap(smemStart + xres as int * 2 * yoffset as int)
  }

  /** For the probe's geometry, any pan the framebuffer core allows
      (`yoffset + yres <= yres_virtual`) puts the whole visible window
      inside the buffer the probe allocated, with no wrap-around. */
  lemma PanStaysInFrame(smemStart: nat, width: u32, height: u32, yoffset: u32)
    requires smemStart + width as int * height as int * 4 < U32_MODULUS
    requires yoffset as int + height as int <= 2 * height as int
    ensures ScanoutAddress(smemStart, width, yoffset) as int == smemStart + width as int * 2 * yoffset as int
    ensures ScanoutAddress(smemStart, width, yoffset) as int + width as int * 2 * height as int
            <= smemStart + FrameSize(width, height)
  {
    var w, h, y := width as int, height as int, yoffset as int;
    assert y <= h;
    assert w * 2 * y <= w * 2 * h by { MulLeftMono(w * 2, y, h); }
    assert w * 2 * y + w * 2 * h <= w * h * 4;
  }

  lemma MulLeftMono(a: nat, b: nat, c: nat)
    requires b <= c
    ensures a * b <= a * c
  {
  }

  // ---------------------------------------------------------------------
  // Interrupts.

  /** The position of the first interrupt status with BASE_UPDATE_DONE
      set, or `|irqs|` if none has it. */
  function BaseUpdateIndex(irqs: seq<bv32>): (k: nat)
    ensures k <= |irqs|
    ensures forall i | 0 <= i < k :: irqs[i] & INT_BASE_UPDATE_DONE == 0
    ensures k < |irqs| ==> irqs[k] & INT_BASE_UPDATE_DONE != 0
  {
    if |irqs| == 0 then 0
    else if irqs[0] & INT_BASE_UPDATE_DONE != 0 then 0
    else 1 + BaseUpdateIndex(irqs[1..])
  }

  // ---------------------------------------------------------------------
  // Findings.

  /** `goldfish_fbs2_remove` as written: it frees
      `xres_virtual * yres_virtual * 2` bytes of the current screen. */
  function RemoveFreeSizeAsWritten(v: ScreenInfo): nat {
    Wrap(v.xresVirtual as int * v.yresVirtual as int * 2) as nat
  }

  /** On the screen the probe set up, that is the size it allocated. */
  lemma RemoveFreeSizeMatchesProbe(width: u32, height: u32)
    requires 2 * height as int < U32_MODULUS
    ensures RemoveFreeSizeAsWritten(ProbeVar(width, height)) == FrameSize(width, height)
  {
    assert width as int * (2 * height as int) * 2 == width as int * height as int * 4;
  }

  /** But `check_var` lets the virtual height shrink to one screen, after
      which remove frees half of the 320x480 buffer the probe allocated. */
  lemma RemoveFreesWrongSize()
    ensures var probe := ProbeVar(320, 480);
            var v := probe.(yresVirtual := 480);
            && CheckVar(v, probe) == 0
            && RemoveFreeSizeAsWritten(v) == 307200
            && FrameSize(320, 480) == 614400
  {
  }

  // ---------------------------------------------------------------------
  // The device.

  /** A probed `goldfish_fb`: the screen the framebuffer core holds for it,
      the fixed buffer, the pseudo palette and the register log. */
  class FbDevice {
    const regBase: nat
    /** `fix.smem_start`, `fix.smem_len`: the scan-out buffer. */
    const smemStart: nat
    const smemLen: nat
    /** The pseudo palette. */
    const cmap: array<bv32>
    /** The display size read from the device at probe time. */
    ghost const probedSize: Size
    /** `var`: the current screen. */
    var screen: ScreenInfo
    /** `fix.line_length`, in bytes. */
    var lineLength: u32
    /** The rotation last pushed to the device. */
    var rotation: u32
    var baseUpdateCount: int
    var regs: seq<RegWrite>

    ghost predicate Valid()
      reads this
    {
      cmap.Length == PALETTE_SIZE && smemLen == FrameSize(probedSize.width, probedSize.height)
    }

    /** `wait_event_timeout` on a change of the base-update counter: the
        interrupts `irqs` arrive before the timeout and are taken until one
        acknowledges the base update. Returns how many were taken. */
    method AwaitBaseUpdate(irqs: seq<bv32>) returns (taken: nat)
      modifies this`baseUpdateCount
      ensures taken == if BaseUpdateIndex(irqs) < |irqs| then BaseUpdateIndex(irqs) + 1 else |irqs|
      ensures baseUpdateCount == old(baseUpdateCount) + (if BaseUpdateIndex(irqs) < |irqs| then 1 else 0)
    {
      var start := baseUpdateCount;
      taken := 0;
      while baseUpdateCount == start && taken < |irqs|
        invariant taken <= |irqs|
        invariant baseUpdateCount == start ==> taken <= BaseUpdateIndex(irqs)
        invariant baseUpdateCount != start ==>
                    baseUpdateCount == start + 1 && taken == BaseUpdateIndex(irqs) + 1
        decreases |irqs| - taken
      {
        var _ := Interrupt(irqs[taken]);
        taken := taken + 1;
      }
    }

    /** `goldfish_fbs2_probe` up to `register_framebuffer`, on its success
        path: the screen is set up for the `width` x `height` display read
        from the device, two screens of buffer are allocated at `fbPhys`,
        the base-update interrupt is enabled and the display is panned to
        the top, taking the interrupts `irqs` while it waits. */
    constructor Probe(base: nat, width: u32, height: u32, fbPhys: nat, irqs: seq<bv32>)
      requires 2 * height as int < U32_MODULUS
      ensures Valid() && probedSize == Size(width, height)
      ensures screen == ProbeVar(width, height) && lineLength == Twice(width) && rotation == 0
      ensures smemStart == fbPhys && smemLen == FrameSize(width, height)
      ensures cmap[..] == seq(PALETTE_SIZE, _ => 0)
      ensures regs == [RegWrite(base, INT_ENABLE, INT_BASE_UPDATE_DONE as int),
                       RegWrite(base, SET_BASE, ScanoutAddress(fbPhys, width, 0) as int)]
      ensures baseUpdateCount == (if BaseUpdateIndex(irqs) < |irqs| then 1 else 0)
    {
      regBase := base;
      smemStart := fbPhys;
      smemLen := FrameSize(width, height);
      probedSize := Size(width, height);
      cmap := new bv32[PALETTE_SIZE](_ => 0);
      screen := ProbeVar(width, height);
      lineLength := Twice(width);
      rotation := 0;
      baseUpdateCount := 0;
      regs := [];
      new;
      ProbeVarAccepted(width, height);
      regs := regs + [RegWrite(base, INT_ENABLE, INT_BASE_UPDATE_DONE as int)];
      var _, _ := PanDisplay(0, irqs);
    }

    /** `goldfish_fbs2_interrupt`, with `raw` the value read from INT_STATUS:
        only BASE_UPDATE_DONE is counted, but any pending bit is claimed. */
    method Interrupt(raw: bv32) returns (ret: IrqReturn)
      modifies this`baseUpdateCount
      ensures baseUpdateCount == old(baseUpdateCount) + (if raw & INT_BASE_UPDATE_DONE != 0 then 1 else 0)
      ensures ret == IrqHandled <==> raw != 0
    {
      if raw & INT_BASE_UPDATE_DONE != 0 {
        baseUpdateCount := baseUpdateCount + 1;
      }
      ret := if raw != 0 then IrqHandled else IrqNone;
    }

    /** `goldfish_fbs2_setcolreg`: entries 0 to 15 of the pseudo palette
        take the packed colour; any other index is refused with 1. */
    method SetColReg(regno: nat, red: bv32, green: bv32, blue: bv32, transp: bv32) returns (r: int)
      requires Valid() && BitfieldsDefined(screen)
      modifies cmap
      ensures regno < PALETTE_SIZE ==>
                r == 0 && cmap[..] == old(cmap[..])[regno := PaletteEntry(screen, red, green, blue, transp)]
      ensures regno >= PALETTE_SIZE ==> r == 1 && cmap[..] == old(cmap[..])
    {
      if regno < PALETTE_SIZE {
        cmap[regno] := PaletteEntry(screen, red, green, blue, transp);
        return 0;
      }
      return 1;
    }

    /** `goldfish_fbs2_set_par`: a changed rotation is recorded, pushed to
        the device and recomputes the line length; otherwise nothing
        happens. Afterwards the device has the screen's rotation, so a
        second call changes nothing. */
    method SetPar() returns (r: int)
      modifies this`lineLength, this`rotation, this`regs
      ensures r == 0 && rotation == screen.rotate
      ensures old(rotation) != screen.rotate ==>
                lineLength == Twice(screen.xres)
                && regs == old(regs) + [RegWrite(regBase, SET_ROTATION, screen.rotate as int)]
      ensures old(rotation) == screen.rotate ==> lineLength == old(lineLength) && regs == old(regs)
    {
      if rotation != screen.rotate {
        lineLength := Twice(screen.xres);
        rotation := screen.rotate;
        regs := regs + [RegWrite(regBase, SET_ROTATION, rotation as int)];
      }
      return 0;
    }

    /** How the framebuffer core applies a new screen: `check_var`, then
        on success the screen is replaced and `set_par` runs. */
    method SetVar(v: ScreenInfo) returns (r: int)
      modifies this`screen, this`lineLength, this`rotation, this`regs
      ensures r == CheckVar(v, old(screen))
      ensures r == 0 ==> screen == v && rotation == v.rotate
      ensures r == 0 && old(rotation) != v.rotate ==>
                lineLength == Twice(v.xres)
                && regs == old(regs) + [RegWrite(regBase, SET_ROTATION, v.rotate as int)]
      ensures r == 0 && old(rotation) == v.rotate ==> lineLength == old(lineLength) && regs == old(regs)
      ensures r != 0 ==> screen == old(screen) && rotation == old(rotation) && regs == old(regs)
                         && lineLength == old(lineLength)
    {
      r := CheckVar(v, screen);
      if r == 0 {
        screen := v;
        var _ := SetPar();
      }
    }

    /** `goldfish_fbs2_pan_display` to line `yoffset`: the new scan-out
        address goes to SET_BASE and the driver waits for the device to
        acknowledge it, taking the interrupts `irqs`. It returns 0 whether
        or not the acknowledgement came before the timeout. */
    method PanDisplay(yoffset: u32, irqs: seq<bv32>) returns (r: int, acknowledged: bool)
      modifies this`regs, this`baseUpdateCount
      ensures regs == old(regs) + [RegWrite(regBase, SET_BASE,
                                            ScanoutAddress(smemStart, screen.xres, yoffset) as int)]
      ensures acknowledged <==> exists i | 0 <= i < |irqs| :: irqs[i] & INT_BASE_UPDATE_DONE != 0
      ensures baseUpdateCount == old(baseUpdateCount) + (if acknowledged then 1 else 0)
      ensures r == 0
    {
      var before := baseUpdateCount;
      regs := regs + [RegWrite(regBase, SET_BASE, ScanoutAddress(smemStart, screen.xres, yoffset) as int)];
      var _ := AwaitBaseUpdate(irqs);
      acknowledged := baseUpdateCount != before;
      if !acknowledged {
        assert forall i | 0 <= i < |irqs| :: irqs[i] & INT_BASE_UPDATE_DONE == 0;
      }
      return 0, acknowledged;
    }

    /** `goldfish_fbs2_remove` as it should be: it frees the `smem_len`
        bytes the probe allocated, whatever screen is current. */
    method Remove() returns (freed: nat)
      requires Valid()
      ensures freed == FrameSize(probedSize.width, probedSize.height)
    {
      freed := smemLen;
    }
  }
}
