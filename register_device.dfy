/** A register-addressed slave of the kind the transfer tables of the I2C
    shim assume: 256 byte registers and an address pointer that the first
    byte of each write sets and that every transferred byte advances. Against
    it, the two framings of the shim form a round trip: data written at a
    register reads back unchanged from that register. */
module RegisterDevice {
  import opened CTypes
  import opened LinuxI2cDriver

  datatype Device = Device(regs: seq<uint8>, pointer: uint8)

  predicate Valid(d: Device) { |d.regs| == 0x100 }

  /** The register `i` places past `start`, counting upwards modulo 256. */
  function Advance(start: uint8, i: int): uint8
  {
    (start + i) % 0x100
  }

  /** How far register `j` lies past register `start`, counting upwards modulo 256. */
  function Offset(start: uint8, j: int): (k: int)
    ensures 0 <= k < 0x100
  {
    (j - start) % 0x100
  }

  lemma OffsetOfAdvance(start: uint8, i: nat)
    requires i < 0x100
    ensures Offset(start, Advance(start, i)) == i
  {
    if start + i >= 0x100 {
      assert Advance(start, i) == start + i - 0x100;
      assert (i - 0x100) % 0x100 == i;
    }
  }

  /** One write transaction on the bus: the first byte addresses a register,
      each further byte is stored at the pointer, which then advances; the
      other registers keep their contents. */
  function Transmit(d: Device, bytes: seq<uint8>): (d': Device)
    requires Valid(d) && |bytes| <= 0x101
    ensures Valid(d')
    ensures bytes != [] ==> d'.pointer == Advance(bytes[0], |bytes| - 1)
    ensures bytes != [] ==>
              forall i :: 0 <= i < |bytes| - 1 ==> d'.regs[Advance(bytes[0], i)] == bytes[i + 1]
    ensures bytes != [] ==>
              forall j :: 0 <= j < 0x100 && Offset(bytes[0], j) >= |bytes| - 1 ==> d'.regs[j] == d.regs[j]
  {
    if bytes == [] then d
    else
      var regs := seq(0x100, j requires 0 <= j < 0x100 =>
                    if Offset(bytes[0], j) < |bytes| - 1 then bytes[1 + Offset(bytes[0], j)] else d.regs[j]);
      assert forall i :: 0 <= i < |bytes| - 1 ==> regs[Advance(bytes[0], i)] == bytes[i + 1] by {
        forall i | 0 <= i < |bytes| - 1
          ensures regs[Advance(bytes[0], i)] == bytes[i + 1]
        {
          OffsetOfAdvance(bytes[0], i);
        }
      }
      Device(regs, Advance(bytes[0], |bytes| - 1))
  }

  /** One read transaction of `n` bytes: the registers from the pointer upwards. */
  function Receive(d: Device, n: nat): (data: seq<uint8>)
    requires Valid(d)
    ensures |data| == n
    ensures forall i :: 0 <= i < n ==> data[i] == d.regs[Advance(d.pointer, i)]
  {
    seq(n, i requires 0 <= i < n => d.regs[Advance(d.pointer, i)])
  }

  /** A one-byte write only moves the pointer. */
  lemma AddressOnly(d: Device, regAddr: uint8)
    requires Valid(d)
    ensures Transmit(d, [regAddr]) == Device(d.regs, regAddr)
  {
    var addressed := Transmit(d, [regAddr]);
    forall j | 0 <= j < 0x100
      ensures addressed.regs[j] == d.regs[j]
    {
      assert Offset(regAddr, j) >= 0;
    }
  }

  /** Writing `data` at `regAddr` with the payload `user_i2c_write` sends, then
      reading `|data|` bytes as `user_i2c_read` does (address byte, then read),
      returns `data`. */
  lemma {:induction false} WriteThenRead(d: Device, regAddr: uint8, data: seq<uint8>)
    requires Valid(d) && |data| <= 0x100
    ensures var written := Transmit(d, WriteFrame(regAddr, data));
            Receive(Transmit(written, [regAddr]), |data|) == data
  {
    var frame := WriteFrame(regAddr, data);
    var written := Transmit(d, frame);
    AddressOnly(written, regAddr);
    var back := Receive(Device(written.regs, regAddr), |data|);
    forall i | 0 <= i < |data|
      ensures back[i] == data[i]
    {
      assert frame[i + 1] == data[i];
    }
  }
}
