/** The VZ's flat 64 KB memory (`VZMemory`), with the banked accessors that
    `Memory` supplies by default and `VZMemory` does not override. */
module Memory {
  import opened JavaInt

  const MEMORY_SIZE: nat := 65536

  /** `cells[address := v]` for a sequence of bytes; the model of one store. */
  function Store(cells: seq<JByte>, address: nat, value: JByte): (r: seq<JByte>)
    requires address < |cells|
    ensures |r| == |cells| && r[address] == value
    ensures forall i :: 0 <= i < |cells| && i != address ==> r[i] == cells[i]
  {
    cells[address := value]
  }

  /** `data` copied over `cells` from `address` on, as `System.arraycopy`
      does. */
  function Overlay(cells: seq<JByte>, address: nat, data: seq<JByte>): (r: seq<JByte>)
    requires address + |data| <= |cells|
    ensures |r| == |cells|
    ensures forall i :: 0 <= i < |data| ==> r[address + i] == data[i]
    ensures forall i :: 0 <= i < |cells| && !(address <= i < address + |data|) ==> r[i] == cells[i]
  {
    cells[..address] + data + cells[address + |data|..]
  }

  class VZMemory {
    /** `byte[] mem = new byte[65536]`. */
    const mem: array<JByte>

    ghost predicate Valid()
    {
      mem.Length == MEMORY_SIZE
    }

    constructor ()
      ensures Valid() && fresh(mem)
      ensures forall i :: 0 <= i < mem.Length ==> mem[i] == 0
    {
      mem := new JByte[MEMORY_SIZE](_ => 0);
    }

    /** `readByte(address)`: the stored byte as an unsigned value. There is no
        address masking: the caller passes an address inside the array. */
    function ReadByte(address: int): (r: int)
      reads mem
      requires Valid() && 0 <= address < MEMORY_SIZE
      ensures 0 <= r < 256
      ensures ToByte(r) == mem[address]
    {
      ToByteUnsigned(mem[address]);
      Unsigned(mem[address])
    }

    /** `writeByte(address, value)`: stores `(byte) value` and returns
        `value & 0xff`. */
    method WriteByte(address: int, value: int) returns (r: int)
      requires Valid() && 0 <= address < MEMORY_SIZE
      modifies mem
      ensures mem[..] == Store(old(mem[..]), address, ToByte(value))
      ensures r == value % 256
      ensures ReadByte(address) == value % 256
    {
      mem[address] := ToByte(value);
      UnsignedToByte(value);
      r := value % 256;
    }

    /** `Memory.readByte(address, config)`: the default ignores the banking
        token and reads the plain address. */
    function ReadByteBanked<C>(address: int, config: C): (r: int)
      reads mem
      requires Valid() && 0 <= address < MEMORY_SIZE
      ensures r == ReadByte(address)
    {
      ReadByte(address)
    }

    /** `Memory.writeByte(address, value, config)`: the default ignores the
        token, forwards to the plain write and discards its result. */
    method WriteByteBanked<C>(address: int, value: int, config: C)
      requires Valid() && 0 <= address < MEMORY_SIZE
      modifies mem
      ensures mem[..] == Store(old(mem[..]), address, ToByte(value))
    {
      var _ := WriteByte(address, value);
    }

    /** `setMemory(address, data)`: `System.arraycopy(data, 0, mem, address,
        data.length)`, which throws unless the range fits. */
    method SetMemory(address: int, data: seq<JByte>)
      requires Valid() && 0 <= address && address + |data| <= MEMORY_SIZE
      modifies mem
      ensures mem[..] == Overlay(old(mem[..]), address, data)
    {
      var i := 0;
      while i < |data|
        invariant 0 <= i <= |data|
        invariant mem[..] == Overlay(old(mem[..]), address, data[..i])
      {
        mem[address + i] := data[i];
        i := i + 1;
      }
    }
  }
}
