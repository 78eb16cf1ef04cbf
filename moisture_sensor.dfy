/** The capacitive moisture sensor driver of XRPLib/moisture_sensor.py: a
    CY8CMBR3xxx touch controller on I2C whose 16-bit status mask has one bit
    per sensing channel.  The bus is replaced by the device's answers (the
    `Device` given to each call) and a journal of the transfers made. */
module MoistureSensor {
  import opened Wrappers

  /** The register map constants (moisture_sensor_defs.py) the driver uses. */
  datatype Registers = Registers(buttonStat: bv8, deviceId: bv8, deviceIdValue: bv8)

  /** The constants as shipped: every register still 0x00. */
  const Shipped := Registers(0x00, 0x00, 0x00)

  /** The 7-bit bus address used by default. */
  const DefaultAddr := 0x37

  /** What the device answers: the two status bytes, and its ID register. */
  datatype Device = Device(status0: bv8, status1: bv8, id: bv8)

  /** One I2C transfer. */
  datatype BusOp =
    | ReadFrom(addr: int, reg: bv8, count: nat)
    | WriteTo(addr: int, reg: bv8, data: bv8)

  datatype SensorError =
    | RegisterNotSet   // RuntimeError: the status register constant is 0x00
    | BadChannel       // ValueError: the channel is not one of the sensor's

  /** `raw[0] | (raw[1] << 8)`: the status mask, byte 0 the low byte. */
  function ActiveMask(lo: bv8, hi: bv8): (m: bv16)
    ensures (m & 0xFF) as bv8 == lo && (m >> 8) as bv8 == hi
  {
    lo as bv16 | ((hi as bv16) << 8)
  }

  /** `bool(mask & (1 << ch))`: channel `ch` is active.  Bits past the
      sixteenth are always clear. */
  function Active(mask: bv16, ch: nat): (b: bool)
    ensures ch >= 16 ==> !b
  {
    ch < 16 && mask & (1 << ch) != 0
  }

  /** A channel's wet state: its bit, inverted unless active means wet. */
  function Wet(mask: bv16, ch: nat, activeHighMeansWet: bool): (w: bool)
    ensures w <==> (Active(mask, ch) == activeHighMeansWet)
  {
    if activeHighMeansWet then Active(mask, ch) else !Active(mask, ch)
  }

  /** `read_active_mask`: fails before touching the bus when the status
      register constant is 0x00, and otherwise assembles the two bytes read
      from it. */
  function ReadActiveMask(regs: Registers, dev: Device): (r: Result<bv16, SensorError>)
    ensures r.Failure? <==> regs.buttonStat == 0x00
    ensures r.Failure? ==> r.error == RegisterNotSet
    ensures r.Success? ==> (r.value & 0xFF) as bv8 == dev.status0 && (r.value >> 8) as bv8 == dev.status1
  {
    if regs.buttonStat == 0x00 then Failure(RegisterNotSet)
    else Success(ActiveMask(dev.status0, dev.status1))
  }

  /** The transfers `read_active_mask` makes: none when it fails, one
      two-byte read of the status register otherwise. */
  function MaskReads(addr: int, regs: Registers): (ops: seq<BusOp>)
    ensures ops == [] <==> regs.buttonStat == 0x00
  {
    if regs.buttonStat == 0x00 then [] else [ReadFrom(addr, regs.buttonStat, 2)]
  }

  /** `is_wet(ch)`: a channel outside `0 .. nChannels-1` is an error found
      before the mask is read; otherwise the channel's wet state. */
  function IsWet(nChannels: int, activeHighMeansWet: bool, regs: Registers, dev: Device, ch: int)
    : (r: Result<bool, SensorError>)
    ensures (ch < 0 || ch >= nChannels) ==> r == Failure(BadChannel)
    ensures 0 <= ch < nChannels ==>
              (r.Failure? <==> ReadActiveMask(regs, dev).Failure?) &&
              (r.Success? ==> r.value == Wet(ReadActiveMask(regs, dev).value, ch, activeHighMeansWet))
  {
    if ch < 0 || ch >= nChannels then Failure(BadChannel)
    else match ReadActiveMask(regs, dev)
      case Failure(e) => Failure(e)
      case Success(mask) => Success(Wet(mask, ch, activeHighMeansWet))
  }

  /** The transfers `is_wet(ch)` makes. */
  function IsWetReads(addr: int, nChannels: int, regs: Registers, ch: int): (ops: seq<BusOp>)
    ensures (ch < 0 || ch >= nChannels) ==> ops == []
  {
    if ch < 0 || ch >= nChannels then [] else MaskReads(addr, regs)
  }

  /** `dat & 0xFF`: the byte `_setreg` stores. */
  function LowByte(dat: int): (b: bv8)
    ensures b as int == dat % 256
  {
    (dat % 256) as bv8
  }

  /** `is_connected`: with both ID constants 0x00 it answers true without
      reading; otherwise it reads the ID register and compares. */
  function Connected(regs: Registers, dev: Device): (c: bool)
    ensures regs.deviceId == 0x00 && regs.deviceIdValue == 0x00 ==> c
    ensures !(regs.deviceId == 0x00 && regs.deviceIdValue == 0x00) ==> (c <==> dev.id == regs.deviceIdValue)
  {
    if regs.deviceId == 0x00 && regs.deviceIdValue == 0x00 then true
    else dev.id == regs.deviceIdValue
  }

  // -----------------------------------------------------------------------
  // Properties
  // -----------------------------------------------------------------------

  /** Byte 0 holds channels 0-7 and byte 1 channels 8-15. */
  lemma MaskIsLittleEndian(lo: bv8, hi: bv8, ch: nat)
    requires ch < 16
    ensures Active(ActiveMask(lo, hi), ch) <==>
              if ch < 8 then lo & (1 << ch) != 0 else hi & (1 << (ch - 8)) != 0
  {
    if ch < 8 {
      LowChannel(lo, hi, ch as bv4);
    } else {
      HighChannel(lo, hi, (ch - 8) as bv3);
    }
  }

  lemma LowChannel(lo: bv8, hi: bv8, c: bv4)
    requires c < 8
    ensures ActiveMask(lo, hi) & (1 << c) != 0 <==> lo & (1 << c) != 0
  {
  }

  lemma HighChannel(lo: bv8, hi: bv8, c: bv3)
    ensures ActiveMask(lo, hi) & (1 << (c as bv4 + 8)) != 0 <==> hi & (1 << c) != 0
  {
  }

  /** The mask is the bytes' value, so it lies in `0 .. 65535`. */
  lemma MaskInRange(regs: Registers, dev: Device)
    requires ReadActiveMask(regs, dev).Success?
    ensures 0 <= ReadActiveMask(regs, dev).value as int < 0x1_0000
  {
  }

  /** With the constants as shipped, `read_active_mask` always fails and
      never touches the bus, so `is_wet` fails on every valid channel. */
  lemma ShippedConstantsNeverRead(addr: int, nChannels: int, activeHighMeansWet: bool, dev: Device, ch: int)
    ensures ReadActiveMask(Shipped, dev) == Failure(RegisterNotSet)
    ensures MaskReads(addr, Shipped) == []
    ensures 0 <= ch < nChannels ==> IsWet(nChannels, activeHighMeansWet, Shipped, dev, ch) == Failure(RegisterNotSet)
    ensures IsWetReads(addr, nChannels, Shipped, ch) == []
  {
  }

  /** With the constants as shipped, `is_connected` holds whatever device is
      on the bus. */
  lemma ShippedConstantsAlwaysConnected(dev: Device)
    ensures Connected(Shipped, dev)
  {
  }

  /** Inverting the polarity inverts every channel's answer. */
  lemma PolarityInverts(nChannels: int, regs: Registers, dev: Device, ch: int)
    requires 0 <= ch < nChannels && regs.buttonStat != 0x00
    ensures IsWet(nChannels, true, regs, dev, ch).Success?
    ensures IsWet(nChannels, false, regs, dev, ch).Success?
    ensures IsWet(nChannels, false, regs, dev, ch).value == !IsWet(nChannels, true, regs, dev, ch).value
  {
  }

  /** Storing a byte keeps it: `b & 0xFF == b` for `0 <= b <= 255`, and only
      the low eight bits of a value matter. */
  lemma LowByteKeepsBytes(dat: int, k: int)
    ensures 0 <= dat < 256 ==> LowByte(dat) as int == dat
    ensures LowByte(dat + 256 * k) as int == LowByte(dat) as int
  {
    var q := dat / 256;
    assert dat + 256 * k == 256 * (q + k) + dat % 256;
    ModOfDivision(dat + 256 * k, q + k, dat % 256);
  }

  lemma ModOfDivision(a: int, q: int, r: int)
    requires a == 256 * q + r && 0 <= r < 256
    ensures a % 256 == r
  {
  }

  /** The driver object: its bus address, channel count and polarity, the
      register constants, its one-byte transmit and receive buffers, and the
      transfers it has made. */
  class Sensor {
    const addr: int
    const nChannels: int
    const activeHighMeansWet: bool
    const regs: Registers
    const tb: array<bv8>
    const rb: array<bv8>
    var bus: seq<BusOp>

    ghost predicate Valid()
      reads this
    {
      tb.Length == 1 && rb.Length == 1 && tb != rb
    }

    constructor (addr: int, nChannels: int, activeHighMeansWet: bool, regs: Registers)
      ensures Valid() && fresh(tb) && fresh(rb) && bus == []
      ensures this.addr == addr && this.nChannels == nChannels
      ensures this.activeHighMeansWet == activeHighMeansWet && this.regs == regs
    {
      this.addr := addr;
      this.nChannels := nChannels;
      this.activeHighMeansWet := activeHighMeansWet;
      this.regs := regs;
      tb := new bv8[1];
      rb := new bv8[1];
      bus := [];
    }

    /** `_setreg`: the low byte of `dat` goes through the transmit buffer
        to register `reg`. */
    method SetReg(reg: bv8, dat: int)
      requires Valid()
      modifies this, tb
      ensures Valid()
      ensures tb[0] == LowByte(dat)
      ensures bus == old(bus) + [WriteTo(addr, reg, LowByte(dat))]
    {
      tb[0] := (dat % 256) as bv8;
      bus := bus + [WriteTo(addr, reg, tb[0])];
    }

    /** `_getreg`: one byte of register `reg`, through the receive buffer;
        the device's answer for the ID register is `dev.id`. */
    method GetReg(reg: bv8, answer: bv8) returns (b: bv8)
      requires Valid()
      modifies this, rb
      ensures Valid()
      ensures b == answer && rb[0] == answer
      ensures bus == old(bus) + [ReadFrom(addr, reg, 1)]
    {
      rb[0] := answer;
      bus := bus + [ReadFrom(addr, reg, 1)];
      b := rb[0];
    }

    method IsConnected(dev: Device) returns (c: bool)
      requires Valid()
      modifies this, rb
      ensures Valid()
      ensures c == Connected(regs, dev)
      ensures bus == old(bus) +
                if regs.deviceId == 0x00 && regs.deviceIdValue == 0x00 then [] else [ReadFrom(addr, regs.deviceId, 1)]
    {
      if regs.deviceId == 0x00 && regs.deviceIdValue == 0x00 {
        return true;
      }
      var id := GetReg(regs.deviceId, dev.id);
      c := id == regs.deviceIdValue;
    }

    method ReadMask(dev: Device) returns (r: Result<bv16, SensorError>)
      modifies this
      ensures r == ReadActiveMask(regs, dev)
      ensures bus == old(bus) + MaskReads(addr, regs)
    {
      if regs.buttonStat == 0x00 {
        return Failure(RegisterNotSet);
      }
      bus := bus + [ReadFrom(addr, regs.buttonStat, 2)];
      r := Success(dev.status0 as bv16 | ((dev.status1 as bv16) << 8));
    }

    method CheckWet(dev: Device, ch: int) returns (r: Result<bool, SensorError>)
      modifies this
      ensures r == IsWet(nChannels, activeHighMeansWet, regs, dev, ch)
      ensures bus == old(bus) + IsWetReads(addr, nChannels, regs, ch)
    {
      if ch < 0 || ch >= nChannels {
        return Failure(BadChannel);
      }
      var mask := ReadMask(dev);
      match mask
      case Failure(e) =>
        r := Failure(e);
      case Success(m) =>
        var active := Active(m, ch);
        r := Success(if activeHighMeansWet then active else !active);
    }

    /** `read_all`: one mask read, then each channel's wet state in order,
        each as `is_wet` would give it for the same mask. */
    method ReadAll(dev: Device) returns (r: Result<seq<bool>, SensorError>)
      modifies this
      ensures r.Failure? <==> ReadActiveMask(regs, dev).Failure?
      ensures r.Success? ==> |r.value| == if nChannels < 0 then 0 else nChannels
      ensures r.Success? ==> forall ch :: 0 <= ch < |r.value| ==>
                IsWet(nChannels, activeHighMeansWet, regs, dev, ch) == Success(r.value[ch])
      ensures bus == old(bus) + MaskReads(addr, regs)
    {
      var mask := ReadMask(dev);
      if mask.Failure? {
        return Failure(mask.error);
      }
      var m := mask.value;
      var out: seq<bool> := [];
      var ch := 0;
      while ch < nChannels
        invariant 0 <= ch <= (if nChannels < 0 then 0 else nChannels) && |out| == ch
        invariant forall j :: 0 <= j < ch ==> out[j] == Wet(m, j, activeHighMeansWet)
      {
        var active := Active(m, ch);
        out := out + [if activeHighMeansWet then active else !active];
        ch := ch + 1;
      }
      r := Success(out);
    }
  }

  /** The class attribute `_DEFAULT_INSTANCE` and its lazy getter. */
  class Registry {
    var instance: Sensor?

    constructor ()
      ensures instance == null
    {
      instance := null;
    }

    /** `get_default_moisture_sensor`: the first call makes a sensor with
        the default settings, every later call returns that same sensor. */
    method GetDefault() returns (s: Sensor)
      modifies this
      ensures instance == s
      ensures old(instance) != null ==> s == old(instance)
      ensures old(instance) == null ==>
                fresh(s) && s.Valid() && s.bus == [] && s.addr == DefaultAddr &&
                s.nChannels == 2 && s.activeHighMeansWet && s.regs == Shipped
    {
      if instance == null {
        instance := new Sensor(DefaultAddr, 2, true, Shipped);
      }
      s := instance;
    }
  }
}
