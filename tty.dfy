/** The goldfish TTY multiplexer: up to eight emulated serial lines, each
    a block of registers through which the driver hands whole buffers to
    the emulator (DATA_PTR, DATA_LEN, then a command).

    Each line has one owning `tty_struct` at a time, with an open count;
    the driver state (`goldfish_ttys` and the TTY driver) exists while at
    least one line is probed. */
module GoldfishTty {
  import opened Mmio

  /** `goldfish_tty_line_count`: lines the driver is created for. */
  const LINE_COUNT: nat := 8

  // Register offsets.
  const PUT_CHAR: nat := 0x00
  const BYTES_READY: nat := 0x04
  const CMD: nat := 0x08
  const DATA_PTR: nat := 0x10
  const DATA_LEN: nat := 0x14

  // Values of CMD.
  const CMD_INT_DISABLE: nat := 0
  const CMD_INT_ENABLE: nat := 1
  const CMD_WRITE_BUFFER: nat := 2
  const CMD_READ_BUFFER: nat := 3

  /** What `write_room` always reports. */
  const WRITE_ROOM: nat := 0x10000

  /** A `tty_struct`: `id` stands for its address, `index` is its line. */
  datatype Tty = Tty(id: nat, index: nat)

  /** One `struct goldfish_tty`. */
  datatype Line = Line(base: nat, irq: nat, opencount: int, owner: Option<Tty>)

  /** A zeroed line, as the driver allocates them. */
  const UNUSED_LINE := Line(0, 0, 0, None)

  /** A line is owned exactly while it is open. */
  predicate Consistent(l: Line) {
    l.opencount >= 0 && (l.opencount > 0 <==> l.owner.Some?)
  }

  /** The new line, the register stores and the return value of one call. */
  datatype LineStep = LineStep(line: Line, writes: seq<RegWrite>, ret: int)

  /** `goldfish_tty_open` of line `l` by `t`: the owner may open it again,
      nobody else while it is owned. Only the first open takes ownership
      and enables the line's interrupt; on a consistent line the opener
      owns it afterwards. */
  function OpenLine(l: Line, t: Tty): (s: LineStep)
    ensures s.ret == 0 || s.ret == -EBUSY
    ensures s.ret == -EBUSY <==> l.owner != None && l.owner != Some(t)
    ensures s.ret == -EBUSY ==> s.line == l && s.writes == []
    ensures s.ret == 0 ==> s.line.opencount == l.opencount + 1
                           && s.line.base == l.base && s.line.irq == l.irq
    ensures s.ret == 0 && Consistent(l) ==> s.line.owner == Some(t)
  {
    if l.owner == None || l.owner == Some(t) then
      if l.opencount == 0 then
        LineStep(l.(opencount := 1, owner := Some(t)), [RegWrite(l.base, CMD, CMD_INT_ENABLE)], 0)
      else
        LineStep(l.(opencount := l.opencount + 1), [], 0)
    else
      assert l.owner.Some? && l.owner.value != t;
      LineStep(l, [], -EBUSY)
  }

  /** `goldfish_tty_close` of line `l` by `t`: only the owner's close counts;
      the last one disables the interrupt and gives up ownership. */
  function CloseLine(l: Line, t: Tty): (s: LineStep)
    ensures l.owner != Some(t) ==> s.line == l && s.writes == []
    ensures s.line.base == l.base && s.line.irq == l.irq
  {
    if l.owner == Some(t) then
      if l.opencount - 1 == 0 then
        LineStep(l.(opencount := 0, owner := None), [RegWrite(l.base, CMD, CMD_INT_DISABLE)], 0)
      else
        LineStep(l.(opencount := l.opencount - 1), [], 0)
    else LineStep(l, [], 0)
  }

  /** Open and close keep every line owned exactly while it is open. */
  lemma OpenCloseKeepConsistent(l: Line, t: Tty)
    requires Consistent(l)
    ensures Consistent(OpenLine(l, t).line)
    ensures Consistent(CloseLine(l, t).line)
  {
  }

  /** Interrupts are enabled by the open that takes a free line, and only by it. */
  lemma OnlyFirstOpenEnables(l: Line, t: Tty)
    requires Consistent(l)
    ensures OpenLine(l, t).writes != [] <==> l.owner == None
    ensures l.owner == None ==> OpenLine(l, t).writes == [RegWrite(l.base, CMD, CMD_INT_ENABLE)]
  {
  }

  /** A close by the owner undoes its open: the line, and whether the
      interrupt is enabled, are as before. */
  lemma OpenThenClose(l: Line, t: Tty)
    requires Consistent(l) && (l.owner == None || l.owner == Some(t))
    ensures CloseLine(OpenLine(l, t).line, t).line == l
    ensures OpenLine(l, t).writes + CloseLine(OpenLine(l, t).line, t).writes
            == (if l.owner == None
                then [RegWrite(l.base, CMD, CMD_INT_ENABLE), RegWrite(l.base, CMD, CMD_INT_DISABLE)]
                else [])
  {
  }

  /** The TTY core closes a tty whose open failed; for a line that was
      busy, that close changes nothing. */
  lemma RefusedOpenThenClose(l: Line, t: Tty)
    requires OpenLine(l, t).ret == -EBUSY
    ensures CloseLine(OpenLine(l, t).line, t) == LineStep(l, [], 0)
  {
  }

  /** The three stores that hand a buffer at `addr` of `len` bytes to the
      line at `base`, with the command `cmd` that says which way it goes. */
  function Transfer(base: nat, addr: nat, len: nat, cmd: nat): (w: seq<RegWrite>)
    ensures |w| == 3 && w[2] == RegWrite(base, CMD, cmd)
    ensures w[0].offset == DATA_PTR && w[1].offset == DATA_LEN
    ensures forall i | 0 <= i < 3 :: w[i].base == base
  {
    [RegWrite(base, DATA_PTR, addr), RegWrite(base, DATA_LEN, len), RegWrite(base, CMD, cmd)]
  }

  /** `goldfish_tty_write_room`: the driver never makes a writer wait. */
  function WriteRoom(): (r: nat)
    ensures r == 0x10000
  {
    WRITE_ROOM
  }

  // ---------------------------------------------------------------------
  // Console setup.

  /** `console_setup` as written for console `index` over the lines'
      base addresses: the bound test is `>` where `>=` was meant, so
      index 8 gets past it; `None` stands for that read of
      `goldfish_ttys[8]`, one entry past the end of the array. */
  function ConsoleSetupAsWritten(index: int, bases: seq<nat>): (r: Option<int>)
    requires -0x8000_0000 <= index < 0x8000_0000 && |bases| == LINE_COUNT
    ensures r == None <==> index == LINE_COUNT
  {
    if AsUnsigned(index) > LINE_COUNT then Some(-ENODEV)
    else if index >= |bases| then None
    else if bases[index] == 0 then Some(-ENODEV)
    else Some(0)
  }

  /** Index 8 passes the bound test and reads past the end of the array. */
  lemma ConsoleSetupReadsPastEnd(bases: seq<nat>)
    requires |bases| == LINE_COUNT
    ensures ConsoleSetupAsWritten(LINE_COUNT, bases) == None
  {
  }

  /** `console_setup` with the bound it needs: a console is usable exactly
      when its index names one of the eight lines and that line is probed
      (has a register base). Negative indexes are caught by the unsigned
      comparison. */
  function ConsoleSetup(index: int, bases: seq<nat>): (r: int)
    requires -0x8000_0000 <= index < 0x8000_0000 && |bases| == LINE_COUNT
    ensures r == 0 || r == -ENODEV
    ensures r == 0 <==> 0 <= index < LINE_COUNT && bases[index] != 0
  {
    if AsUnsigned(index) >= LINE_COUNT then -ENODEV
    else if bases[index] == 0 then -ENODEV
    else 0
  }

  /** The corrected check agrees with the written one wherever the written
      one stays inside the array. */
  lemma ConsoleSetupAgrees(index: int, bases: seq<nat>)
    requires -0x8000_0000 <= index < 0x8000_0000 && |bases| == LINE_COUNT
    requires index != LINE_COUNT
    ensures ConsoleSetupAsWritten(index, bases) == Some(ConsoleSetup(index, bases))
  {
  }

  /** The register base of each line. */
  function Bases(lines: seq<Line>): seq<nat>
  {
    seq(|lines|, i requires 0 <= i < |lines| => lines[i].base)
  }

  // ---------------------------------------------------------------------
  // The driver.

  /** The module's global state: the line array, the count of probed
      lines and whether the TTY driver exists. */
  class TtyDriver {
    /** `goldfish_ttys`, meaningful while `created`. */
    var ttys: array<Line>
    /** `goldfish_tty_current_line_count`. */
    var currentLineCount: nat
    /** `goldfish_tty_driver != NULL`. */
    var created: bool
    /** The lines probed and not yet removed. */
    ghost var probed: set<nat>
    var regs: seq<RegWrite>

    ghost predicate Valid()
      reads this, ttys
    {
      && ttys.Length == LINE_COUNT
      && (created <==> currentLineCount > 0)
      && currentLineCount == |probed|
      && (forall i | i in probed :: i < LINE_COUNT)
      && (created ==> LinesConsistent())
    }

    ghost predicate LinesConsistent()
      reads this, ttys
    {
      ttys.Length == LINE_COUNT && forall i | 0 <= i < LINE_COUNT :: Consistent(ttys[i])
    }

    /** `goldfish_tty_create_driver`, once it succeeds: a zeroed line array. */
    method CreateDriver()
      modifies this`ttys, this`created
      ensures fresh(ttys) && created && LinesConsistent()
      ensures ttys[..] == seq(LINE_COUNT, _ => UNUSED_LINE)
    {
      ttys := new Line[LINE_COUNT](_ => UNUSED_LINE);
      created := true;
    }

    /** A probed line's resources are recorded and its interrupt disabled. */
    method SetUpLine(id: nat, base: nat, irq: nat)
      requires LinesConsistent() && id < LINE_COUNT
      modifies ttys, this`regs
      ensures LinesConsistent()
      ensures ttys[..] == old(ttys[..])[id := old(ttys[id]).(base := base, irq := irq)]
      ensures regs == old(regs) + [RegWrite(base, CMD, CMD_INT_DISABLE)]
    {
      ttys[id] := ttys[id].(base := base, irq := irq);
      regs := regs + [RegWrite(base, CMD, CMD_INT_DISABLE)];
    }

    /** Module load: no line probed, no driver. */
    constructor ()
      ensures Valid() && !created && probed == {} && regs == []
    {
      ttys := new Line[LINE_COUNT](_ => UNUSED_LINE);
      currentLineCount := 0;
      created := false;
      probed := {};
      regs := [];
    }

    /** `goldfish_tty_open` by `t` on its line. */
    method Open(t: Tty) returns (r: int)
      requires Valid() && created && t.index < LINE_COUNT
      modifies ttys, this`regs
      ensures Valid()
      ensures var s := OpenLine(old(ttys[t.index]), t);
              ttys[..] == old(ttys[..])[t.index := s.line] && regs == old(regs) + s.writes && r == s.ret
    {
      var q := ttys[t.index];
      OpenCloseKeepConsistent(q, t);
      if q.owner == None || q.owner == Some(t) {
        var before := q.opencount;
        q := q.(opencount := before + 1);
        if before == 0 {
          q := q.(owner := Some(t));
          regs := regs + [RegWrite(q.base, CMD, CMD_INT_ENABLE)];
        }
        ttys[t.index] := q;
        r := 0;
      } else {
        r := -EBUSY;
      }
    }

    /** `goldfish_tty_close` by `t` on its line. */
    method Close(t: Tty)
      requires Valid() && created && t.index < LINE_COUNT
      modifies ttys, this`regs
      ensures Valid()
      ensures var s := CloseLine(old(ttys[t.index]), t);
              ttys[..] == old(ttys[..])[t.index := s.line] && regs == old(regs) + s.writes
    {
      var q := ttys[t.index];
      OpenCloseKeepConsistent(q, t);
      if q.owner == Some(t) {
        q := q.(opencount := q.opencount - 1);
        if q.opencount == 0 {
          regs := regs + [RegWrite(q.base, CMD, CMD_INT_DISABLE)];
          q := q.(owner := None);
        }
        ttys[t.index] := q;
      }
    }

    /** `goldfish_tty_do_write`: hand `count` bytes at `addr` to line `line`. */
    method DoWrite(line: nat, addr: nat, count: nat)
      requires Valid() && created && line < LINE_COUNT
      modifies this`regs
      ensures regs == old(regs) + Transfer(ttys[line].base, addr, count, CMD_WRITE_BUFFER)
    {
      var base := ttys[line].base;
      regs := regs + [RegWrite(base, DATA_PTR, addr)];
      regs := regs + [RegWrite(base, DATA_LEN, count)];
      regs := regs + [RegWrite(base, CMD, CMD_WRITE_BUFFER)];
    }

    /** `goldfish_tty_write`: the whole buffer goes out at once. */
    method Write(t: Tty, addr: nat, count: nat) returns (written: nat)
      requires Valid() && created && t.index < LINE_COUNT
      modifies this`regs
      ensures written == count
      ensures regs == old(regs) + Transfer(ttys[t.index].base, addr, count, CMD_WRITE_BUFFER)
    {
      DoWrite(t.index, addr, count);
      return count;
    }

    /** `goldfish_tty_interrupt` for line `line`, which reported `bytesReady`
        bytes; the TTY core granted `granted` of them in a flip buffer at
        `addr`. Nothing ready: the interrupt is not ours and nothing is
        stored. */
    method Interrupt(line: nat, bytesReady: u32, granted: nat, addr: nat) returns (ret: IrqReturn)
      requires Valid() && created && line < LINE_COUNT
      requires granted <= bytesReady as int
      modifies this`regs
      ensures bytesReady == 0 ==> ret == IrqNone && regs == old(regs)
      ensures bytesReady != 0 ==>
                ret == IrqHandled
                && regs == old(regs) + Transfer(ttys[line].base, addr, granted, CMD_READ_BUFFER)
    {
      if bytesReady == 0 {
        return IrqNone;
      }
      var base := ttys[line].base;
      regs := regs + Transfer(base, addr, granted, CMD_READ_BUFFER);
      return IrqHandled;
    }

    /** `goldfish_tty_console_setup` with the bound corrected. */
    method ConsoleSetupLine(index: int) returns (r: int)
      requires Valid() && created && -0x8000_0000 <= index < 0x8000_0000
      ensures r == ConsoleSetup(index, Bases(ttys[..]))
    {
      if AsUnsigned(index) >= LINE_COUNT {
        return -ENODEV;
      }
      if ttys[index].base == 0 {
        return -ENODEV;
      }
      return 0;
    }

    /** `goldfish_tty_probe` of platform device `id` with memory resource
        `mem` (already mapped to a register base) and interrupt resource
        `irqRes`; either may be missing. `createErr`, `irqErr` and `registerErr` are what creating the
        driver, `request_irq` and `tty_register_device` return (0 for
        success). A failure after the line count was raised lowers it
        again and deletes the driver if that was the only line; the line's
        base stays set. */
    method Probe(id: int, mem: Option<nat>, irqRes: Option<nat>,
                 createErr: int, irqErr: int, registerErr: int)
      returns (r: int)
      requires Valid()
      requires -0x8000_0000 <= id < 0x8000_0000 && id !in probed
      requires createErr <= 0 && irqErr <= 0 && registerErr <= 0
      modifies this, ttys
      ensures Valid()
      ensures mem == None || irqRes == None || AsUnsigned(id) >= LINE_COUNT ==>
                r == -EINVAL && unchanged(this) && ttys[..] == old(ttys[..])
      ensures mem.Some? && irqRes.Some? && 0 <= id < LINE_COUNT && !old(created) && createErr != 0 ==>
                r == createErr && unchanged(this) && ttys[..] == old(ttys[..])
      ensures mem.Some? && irqRes.Some? && 0 <= id < LINE_COUNT && old(created) ==>
                ttys == old(ttys)
                && ttys[..] == old(ttys[..])[id := old(ttys[id]).(base := mem.value, irq := irqRes.value)]
      ensures mem.Some? && irqRes.Some? && 0 <= id < LINE_COUNT && !old(created) && createErr == 0 ==>
                fresh(ttys)
                && ttys[..] == seq(LINE_COUNT, _ => UNUSED_LINE)[id := UNUSED_LINE.(base := mem.value, irq := irqRes.value)]
      ensures mem.Some? && irqRes.Some? && 0 <= id < LINE_COUNT && (old(created) || createErr == 0) ==>
                var base, irq := mem.value, irqRes.value;
                && regs == old(regs) + [RegWrite(base, CMD, CMD_INT_DISABLE)]
                && (irqErr == 0 && registerErr == 0 ==>
                      r == 0 && probed == old(probed) + {id} && created
                      && ttys[id].base == base && ttys[id].irq == irq)
                && (irqErr != 0 || registerErr != 0 ==>
                      r == (if irqErr != 0 then irqErr else registerErr)
                      && probed == old(probed) && created == old(created)
                      && (created ==> ttys[id].base == base))
    {
      if mem == None || irqRes == None {
        return -EINVAL;
      }
      var base, irq := mem.value, irqRes.value;
      if AsUnsigned(id) >= LINE_COUNT {
        return -EINVAL;
      }
      if currentLineCount == 0 {
        if createErr != 0 {
          return createErr;
        }
        CreateDriver();
      }
      currentLineCount := currentLineCount + 1;
      SetUpLine(id, base, irq);
      if irqErr != 0 || registerErr != 0 {
        currentLineCount := currentLineCount - 1;
        if currentLineCount == 0 {
          created := false;
        }
        return if irqErr != 0 then irqErr else registerErr;
      }
      probed := probed + {id};
      return 0;
    }

    /** `goldfish_tty_remove` of probed line `id`: its base is cleared and
        the driver is deleted with the last line. */
    method Remove(id: nat)
      requires Valid() && id in probed
      modifies this, ttys
      ensures Valid()
      ensures probed == old(probed) - {id} && regs == old(regs)
      ensures created <==> probed != {}
      ensures ttys == old(ttys) && ttys[..] == old(ttys[..])[id := old(ttys[id]).(base := 0)]
    {
      ttys[id] := ttys[id].(base := 0);
      probed := probed - {id};
      currentLineCount := currentLineCount - 1;
      if currentLineCount == 0 {
        created := false;
      }
    }
  }
}
