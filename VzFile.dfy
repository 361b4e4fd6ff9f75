/** The `.VZ` snapshot format read by `VZ.loadFile`: a 24-byte header (the
    file type at offset 21, the little-endian load address at 22-23)
    followed by the payload, which is stored from the load address on with
    16-bit wrap-around. */
module VzFile {
  import opened JavaInt
  import opened Memory
  import Machine

  const HEADER_SIZE: nat := 24
  /** A BASIC program: the BASIC start and end pointers are patched. */
  const TYPE_BASIC: int := 0xf0
  /** A machine-code program: execution continues at the load address. */
  const TYPE_MACHINE_CODE: int := 0xf1
  const BAD_FORMAT: string := "Bad VZ File format"

  /** Where a BASIC program's start and end pointers live. */
  const BASIC_START: nat := 0x78a4
  const BASIC_END: nat := 0x78f9

  /** `header[21] & 0xff`. */
  function FileType(image: seq<JByte>): (r: int)
    requires |image| >= HEADER_SIZE
    ensures 0 <= r < 256
  {
    Unsigned(image[21])
  }

  /** `(header[22] & 0xff) + 256 * (header[23] & 0xff)`. */
  function StartAddress(image: seq<JByte>): (r: int)
    requires |image| >= HEADER_SIZE
    ensures 0 <= r < MEMORY_SIZE
    ensures r == Machine.GetWord(image, 22)
  {
    Unsigned(image[22]) + 256 * Unsigned(image[23])
  }

  /** The bytes after the header: what the `in.read()` loop delivers. */
  function Payload(image: seq<JByte>): seq<JByte>
    requires |image| >= HEADER_SIZE
  {
    image[HEADER_SIZE..]
  }

  /** The address after the last payload byte, wrapped to 16 bits. */
  function EndAddress(image: seq<JByte>): (r: int)
    requires |image| >= HEADER_SIZE
    ensures 0 <= r < MEMORY_SIZE
  {
    (StartAddress(image) + |Payload(image)|) % MEMORY_SIZE
  }

  /** The memory after `data` has been written byte by byte from `address`,
      the address advancing modulo 65536 after each byte. */
  function PokeAll(cells: seq<JByte>, address: nat, data: seq<JByte>): (r: seq<JByte>)
    requires |cells| == MEMORY_SIZE && address < MEMORY_SIZE
    ensures |r| == MEMORY_SIZE
  {
    if data == [] then cells
    else Store(PokeAll(cells, address, data[..|data| - 1]), (address + |data| - 1) % MEMORY_SIZE, data[|data| - 1])
  }

  /** Every byte among the last 65536 of `data` is found at its wrapped
      address: byte `i` at `(address + i) & 0xffff`. */
  lemma {:induction false} PokeAllLands(cells: seq<JByte>, address: nat, data: seq<JByte>, i: nat)
    requires |cells| == MEMORY_SIZE && address < MEMORY_SIZE
    requires i < |data| <= i + MEMORY_SIZE
    ensures PokeAll(cells, address, data)[(address + i) % MEMORY_SIZE] == data[i]
  {
    var n := |data| - 1;
    if i < n {
      var init := data[..n];
      PokeAllLands(cells, address, init, i);
      DistinctWrapped(address, i, n);
    }
  }

  /** Advancing a wrapped address by one is wrapping the next offset. */
  lemma WrapStep(k: int)
    ensures (k % MEMORY_SIZE + 1) % MEMORY_SIZE == (k + 1) % MEMORY_SIZE
  {
    var q := k / MEMORY_SIZE;
    assert k == MEMORY_SIZE * q + k % MEMORY_SIZE;
    if k % MEMORY_SIZE + 1 == MEMORY_SIZE {
      assert k + 1 == MEMORY_SIZE * (q + 1);
    } else {
      assert k + 1 == MEMORY_SIZE * q + (k % MEMORY_SIZE + 1);
    }
  }

  /** Two offsets less than 65536 apart land on different cells. */
  lemma DistinctWrapped(address: nat, i: nat, n: nat)
    requires i < n < i + MEMORY_SIZE
    ensures (address + i) % MEMORY_SIZE != (address + n) % MEMORY_SIZE
  {
    var a, b := address + i, address + n;
    assert a == MEMORY_SIZE * (a / MEMORY_SIZE) + a % MEMORY_SIZE;
    assert b == MEMORY_SIZE * (b / MEMORY_SIZE) + b % MEMORY_SIZE;
  }

  /** A cell the payload does not reach keeps its old byte. */
  lemma {:induction false} PokeAllUntouched(cells: seq<JByte>, address: nat, data: seq<JByte>, a: nat)
    requires |cells| == MEMORY_SIZE && address < MEMORY_SIZE && a < MEMORY_SIZE
    requires (a - address) % MEMORY_SIZE >= |data|
    ensures PokeAll(cells, address, data)[a] == cells[a]
  {
    if data != [] {
      var n := |data| - 1;
      PokeAllUntouched(cells, address, data[..n], a);
      if a == (address + n) % MEMORY_SIZE {
        OffsetOfWrapped(address, n, a);
      }
    }
  }

  lemma OffsetOfWrapped(address: nat, n: nat, a: nat)
    requires address < MEMORY_SIZE && a < MEMORY_SIZE && n < MEMORY_SIZE
    requires a == (address + n) % MEMORY_SIZE
    ensures (a - address) % MEMORY_SIZE == n
  {
    if address + n >= MEMORY_SIZE {
      assert a == address + n - MEMORY_SIZE;
    }
  }

  /** The memory `loadFile` leaves for an image with a complete header: the
      payload from the load address on and, for a BASIC program, the load
      address and the end address stored in the BASIC pointers. */
  function Loaded(cells: seq<JByte>, image: seq<JByte>): (r: seq<JByte>)
    requires |cells| == MEMORY_SIZE && |image| >= HEADER_SIZE
    ensures |r| == MEMORY_SIZE
  {
    var m := PokeAll(cells, StartAddress(image), Payload(image));
    var end := EndAddress(image);
    if FileType(image) == TYPE_BASIC then
      Store(Store(Store(Store(m, BASIC_START, image[22]), BASIC_START + 1, image[23]),
                  BASIC_END, ToByte(end)), BASIC_END + 1, ToByte(end / 256))
    else m
  }

  /** The four BASIC pointer cells. */
  predicate IsPointerCell(a: int)
  {
    a == BASIC_START || a == BASIC_START + 1 || a == BASIC_END || a == BASIC_END + 1
  }

  /** Outside the pointer cells of a BASIC program, payload byte `i` (among
      the last 65536) is at `(start + i) & 0xffff` and every cell the payload
      does not reach keeps its byte. */
  lemma LoadedPayload(cells: seq<JByte>, image: seq<JByte>)
    requires |cells| == MEMORY_SIZE && |image| >= HEADER_SIZE
    ensures var r, start, data := Loaded(cells, image), StartAddress(image), Payload(image);
            && (forall i :: (0 <= i < |data| <= i + MEMORY_SIZE &&
                               !(FileType(image) == TYPE_BASIC && IsPointerCell((start + i) % MEMORY_SIZE)))
                  ==> r[(start + i) % MEMORY_SIZE] == data[i])
            && (forall a :: (0 <= a < MEMORY_SIZE && (a - start) % MEMORY_SIZE >= |data| &&
                               !(FileType(image) == TYPE_BASIC && IsPointerCell(a)))
                  ==> r[a] == cells[a])
  {
    var start, data := StartAddress(image), Payload(image);
    forall i | 0 <= i < |data| <= i + MEMORY_SIZE
      ensures PokeAll(cells, start, data)[(start + i) % MEMORY_SIZE] == data[i]
    {
      PokeAllLands(cells, start, data, i);
    }
    forall a | 0 <= a < MEMORY_SIZE && (a - start) % MEMORY_SIZE >= |data|
      ensures PokeAll(cells, start, data)[a] == cells[a]
    {
      PokeAllUntouched(cells, start, data, a);
    }
  }

  /** After a BASIC program the start pointer holds the load address and
      the end pointer the address after the last payload byte. */
  lemma LoadedBasicPointers(cells: seq<JByte>, image: seq<JByte>)
    requires |cells| == MEMORY_SIZE && |image| >= HEADER_SIZE && FileType(image) == TYPE_BASIC
    ensures var r := Loaded(cells, image);
            Machine.GetWord(r, BASIC_START) == StartAddress(image) &&
            Machine.GetWord(r, BASIC_END) == EndAddress(image)
  {
    var end := EndAddress(image);
    UnsignedToByte(end);
    UnsignedToByte(end / 256);
  }
}
