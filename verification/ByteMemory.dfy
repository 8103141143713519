/** Byte ranges over a memory made of words (sched/coproc_runner.cpp, mem_write and mem_read): whatever the
    alignment, they behave like loads and stores on one flat byte array. */
module ByteMemory {
  import opened Arith
  import opened Tiling
  import opened Coproc

  type Byte = x: int | 0 <= x < 256 witness 0

  /** Byte address of the first byte of word `word`. */
  function First(word: nat, wbytes: nat): nat { if word == 0 then 0 else First(word - 1, wbytes) + wbytes }

  lemma {:induction false} FirstIsProduct(word: nat, wbytes: nat)
    ensures First(word, wbytes) == word * wbytes
  {
    if word > 0 {
      FirstIsProduct(word - 1, wbytes);
      assert word * wbytes == (word - 1) * wbytes + wbytes;
    }
  }

  /** Byte address of byte `off` of word `word`. */
  function Addr(word: nat, off: nat, wbytes: nat): nat { First(word, wbytes) + off }

  /** Splitting an address and putting it together again, in both orders. */
  lemma AddrSplit(i: nat, wbytes: nat)
    requires wbytes > 0
    ensures Addr(i / wbytes, i % wbytes, wbytes) == i
  {
    FirstIsProduct(i / wbytes, wbytes);
  }

  lemma AddrInWord(word: nat, off: nat, wbytes: nat)
    requires off < wbytes
    ensures Addr(word, off, wbytes) / wbytes == word && Addr(word, off, wbytes) % wbytes == off
  {
    FirstIsProduct(word, wbytes);
    DivModUnique(Addr(word, off, wbytes), wbytes, word, off);
  }

  /** An address below the end of a memory lies in one of its words. */
  lemma {:induction false} WordInRange(word: nat, off: nat, wbytes: nat, words: nat)
    requires Addr(word, off, wbytes) < First(words, wbytes)
    ensures word < words
  {
    if word > words {
      WordInRange(word - 1, off, wbytes, words);
    }
  }

  class WordRam {
    const wbytes: nat
    const mem: array2<Byte> // word, byte within the word

    ghost predicate Valid() { wbytes > 0 && mem.Length1 == wbytes }

    function Size(): nat { First(mem.Length0, wbytes) }

    /** The flat byte memory this word array stands for. */
    ghost function Flat(): (f: seq<Byte>)
      requires Valid()
      reads mem
      ensures |f| == Size()
    {
      seq(Size(), i requires 0 <= i < Size() reads mem => At(i))
    }

    ghost function At(i: nat): Byte
      requires Valid() && i < Size()
      reads mem
    {
      AddrSplit(i, wbytes);
      WordInRange(i / wbytes, i % wbytes, wbytes, mem.Length0);
      mem[i / wbytes, i % wbytes]
    }

    lemma AtAddr(word: nat, off: nat)
      requires Valid() && off < wbytes && Addr(word, off, wbytes) < Size()
      ensures word < mem.Length0 && At(Addr(word, off, wbytes)) == mem[word, off]
    {
      AddrInWord(word, off, wbytes);
      WordInRange(word, off, wbytes, mem.Length0);
    }

    constructor (wbytes: nat, words: nat)
      requires wbytes > 0
      ensures Valid() && fresh(mem) && this.wbytes == wbytes && Size() == First(words, wbytes)
    {
      this.wbytes := wbytes;
      mem := new Byte[words, wbytes];
    }

    /** Copies `chunk` bytes of `data` into one word. */
    method CopyIn(word: nat, off: nat, data: seq<Byte>, done: nat, chunk: nat)
      requires Valid() && word < mem.Length0 && off + chunk <= wbytes && done + chunk <= |data|
      requires Addr(word, off, wbytes) + chunk <= Size()
      modifies mem
      ensures Flat() == Store(old(Flat()), Addr(word, off, wbytes), data[done..done + chunk])
    {
      ghost var after := Store(Flat(), Addr(word, off, wbytes), data[done..done + chunk]);
      forall b | off <= b < off + chunk {
        mem[word, b] := data[done + (b - off)];
      }
      forall i | 0 <= i < Size()
        ensures Flat()[i] == after[i]
      {
        AddrSplit(i, wbytes);
        WordInRange(i / wbytes, i % wbytes, wbytes, mem.Length0);
        SameWord(word, off, chunk, i, wbytes);
      }
    }

    /** Stores a byte range, starting at any byte of any word. */
    method MemWrite(at: nat, data: seq<Byte>)
      requires Valid() && at + |data| <= Size()
      modifies mem
      ensures Flat() == Store(old(Flat()), at, data)
    {
      hide Flat, Store;
      var word: nat, off: nat := at / wbytes, at % wbytes;
      var done := 0;
      AddrSplit(at, wbytes);
      StoreNothing(Flat(), at, data);
      while done < |data|
        invariant done <= |data| && off < wbytes && (done < |data| ==> Addr(word, off, wbytes) == at + done)
        invariant Flat() == Store(old(Flat()), at, data[..done])
      {
        var chunk := wbytes - off;
        if chunk > |data| - done { chunk := |data| - done; }
        WordInRange(word, off, wbytes, mem.Length0);
        CopyIn(word, off, data, done, chunk);
        StoreTwice(old(Flat()), at, data, done, chunk);
        done := done + chunk;
        word, off := word + 1, 0;
      }
      assert data[..done] == data;
    }

    /** Copies `chunk` bytes out of one word. */
    method CopyOut(word: nat, off: nat, chunk: nat) returns (bytes: seq<Byte>)
      requires Valid() && word < mem.Length0 && off + chunk <= wbytes && Addr(word, off, wbytes) + chunk <= Size()
      ensures bytes == Flat()[Addr(word, off, wbytes)..Addr(word, off, wbytes) + chunk]
    {
      bytes := seq(chunk, b requires 0 <= b < chunk reads mem => mem[word, off + b]);
      forall b | 0 <= b < chunk
        ensures bytes[b] == Flat()[Addr(word, off, wbytes) + b]
      {
        AtAddr(word, off + b);
      }
    }

    /** Loads a byte range, starting at any byte of any word. */
    method MemRead(at: nat, n: nat) returns (out: seq<Byte>)
      requires Valid() && at + n <= Size()
      ensures out == Flat()[at..at + n]
    {
      hide Flat;
      var word: nat, off: nat := at / wbytes, at % wbytes;
      out := [];
      AddrSplit(at, wbytes);
      while |out| < n
        invariant |out| <= n && off < wbytes && (|out| < n ==> Addr(word, off, wbytes) == at + |out|)
        invariant out == Flat()[at..at + |out|]
      {
        var chunk := wbytes - off;
        if chunk > n - |out| { chunk := n - |out|; }
        WordInRange(word, off, wbytes, mem.Length0);
        var bytes := CopyOut(word, off, chunk);
        assert Flat()[at..at + |out|] + Flat()[at + |out|..at + |out| + chunk] == Flat()[at..at + |out| + chunk];
        out := out + bytes;
        word, off := word + 1, 0;
      }
    }
  }

  /** Byte `i` is among `chunk` bytes of word `word` exactly if its own word and offset are. */
  lemma SameWord(word: nat, off: nat, chunk: nat, i: nat, wbytes: nat)
    requires off + chunk <= wbytes && wbytes > 0
    ensures Addr(word, off, wbytes) <= i < Addr(word, off, wbytes) + chunk <==>
      i / wbytes == word && off <= i % wbytes < off + chunk
    ensures i / wbytes == word ==> i - Addr(word, off, wbytes) == i % wbytes - off
  {
    AddrSplit(i, wbytes);
    if Addr(word, off, wbytes) <= i < Addr(word, off, wbytes) + chunk {
      AddrInWord(word, i - First(word, wbytes), wbytes);
    }
  }

  lemma StoreNothing<T>(mem: seq<T>, at: nat, data: seq<T>)
    requires at + |data| <= |mem|
    ensures Store(mem, at, data[..0]) == mem
  {
  }

  /** Storing a range piece by piece stores the range. */
  lemma StoreTwice<T>(mem: seq<T>, at: nat, data: seq<T>, done: nat, chunk: nat)
    requires at + |data| <= |mem| && done + chunk <= |data|
    ensures Store(Store(mem, at, data[..done]), at + done, data[done..done + chunk]) == Store(mem, at, data[..done + chunk])
  {
  }

  /** A load returns what was stored, and a load elsewhere what was there before. */
  lemma LoadAfterStore<T>(mem: seq<T>, at: nat, data: seq<T>, at': nat, n: nat)
    requires at + |data| <= |mem| && at' + n <= |mem|
    ensures Store(mem, at, data)[at..at + |data|] == data
    ensures Disjoint(at, |data|, at', n) ==> Store(mem, at, data)[at'..at' + n] == mem[at'..at' + n]
  {
    StoredSlice(mem, at, data, 0, |data|, data);
  }

  // --- int32 results as bytes ---

  /** The little-endian two's-complement bytes of an int32: its base-256 digits, rounding towards minus infinity. */
  function Bytes(x: Int32): (b: seq<Byte>)
    ensures |b| == 4
  {
    var v: int := x;
    [v % 256, v / 256 % 256, v / 65536 % 256, v / 16777216 % 256]
  }

  /** The int32 made of four little-endian bytes. */
  function Cell(b: seq<Byte>): Int32
    requires |b| == 4
  {
    Wrap32(b[0] as int + 256 * b[1] as int + 65536 * b[2] as int + 16777216 * b[3] as int)
  }

  lemma CellOfBytes(x: Int32)
    ensures Cell(Bytes(x)) == x
  {
    var b := Bytes(x);
    var sum := b[0] as int + 256 * b[1] as int + 65536 * b[2] as int + 16777216 * b[3] as int;
    BytesAddUp(x);
    Wrap32Modulo(sum);
    hide Wrap32;
  }

  /** The digits add up to `v`, less a multiple of 2^32. */
  lemma BytesAddUp(v: int)
    ensures v % 256 + 256 * (v / 256 % 256) + 65536 * (v / 65536 % 256) + 16777216 * (v / 16777216 % 256) ==
      v - 0x1_0000_0000 * (v / 16777216 / 256)
  {
    var d1, d2, d3 := v / 256, v / 256 / 256, v / 256 / 256 / 256;
    assert v / 65536 == d2 && v / 16777216 == d3;
    assert v == 256 * d1 + v % 256 && d1 == 256 * d2 + d1 % 256 && d2 == 256 * d3 + d2 % 256 && d3 == 256 * (d3 / 256) + d3 % 256;
  }

  /** A memory of int32 cells, byte by byte. */
  function AllBytes(cells: seq<Int32>): (b: seq<Byte>)
    ensures |b| == 4 * |cells|
  {
    if cells == [] then [] else AllBytes(cells[..|cells| - 1]) + Bytes(cells[|cells| - 1])
  }

  lemma {:induction false} BytesOfCell(cells: seq<Int32>, i: nat)
    requires i < |cells|
    ensures AllBytes(cells)[4 * i..4 * i + 4] == Bytes(cells[i])
  {
    var front := cells[..|cells| - 1];
    if i < |front| {
      BytesOfCell(front, i);
      assert AllBytes(cells)[4 * i..4 * i + 4] == AllBytes(front)[4 * i..4 * i + 4];
    }
  }

  /** Every aligned four-byte load is the cell stored there. */
  lemma {:induction false} LoadCell(cells: seq<Int32>, i: nat)
    requires i < |cells|
    ensures Cell(AllBytes(cells)[4 * i..4 * i + 4]) == cells[i]
  {
    BytesOfCell(cells, i);
    CellOfBytes(cells[i]);
  }

  lemma SliceAt<T>(s: seq<T>, lo: nat, j: nat)
    requires lo + 4 <= |s| && j < 4
    ensures s[lo..lo + 4][j] == s[lo + j]
  {
  }

  /** Byte `k` is byte `j` of cell `i`. */
  lemma ByteOfCell(cells: seq<Int32>, i: nat, j: nat, k: nat)
    requires i < |cells| && j < 4 && k == 4 * i + j
    ensures AllBytes(cells)[k] == Bytes(cells[i])[j]
  {
    BytesOfCell(cells, i);
    hide AllBytes, Bytes;
    SliceAt(AllBytes(cells), 4 * i, j);
  }

  lemma StoredAt<T>(mem: seq<T>, at: nat, data: seq<T>, k: nat, k': nat)
    requires at + |data| <= |mem| && k' < |data| && k == at + k'
    ensures Store(mem, at, data)[k] == data[k']
  {
  }

  lemma KeptAt<T>(mem: seq<T>, at: nat, data: seq<T>, k: nat)
    requires at + |data| <= |mem| && k < |mem| && !(at <= k < at + |data|)
    ensures Store(mem, at, data)[k] == mem[k]
  {
  }

  /** Byte `k` of a store of cells, inside the stored range: byte `k'` of the data. */
  lemma StoredInside(cells: seq<Int32>, at: nat, data: seq<Int32>, i: nat, i': nat, j: nat, k: nat, k': nat)
    requires at + |data| <= |cells| && i' < |data| && i == at + i' && j < 4 && k == 4 * i + j && k' == 4 * i' + j
    ensures AllBytes(Store(cells, at, data))[k] == AllBytes(data)[k']
  {
    hide AllBytes, Bytes, Store;
    ByteOfCell(Store(cells, at, data), i, j, k);
    ByteOfCell(data, i', j, k');
    StoredAt(cells, at, data, i, i');
  }

  /** And outside it. */
  lemma StoredOutside(cells: seq<Int32>, at: nat, data: seq<Int32>, i: nat, j: nat, k: nat)
    requires at + |data| <= |cells| && i < |cells| && !(at <= i < at + |data|) && j < 4 && k == 4 * i + j
    ensures AllBytes(Store(cells, at, data))[k] == AllBytes(cells)[k]
  {
    hide AllBytes, Bytes, Store;
    ByteOfCell(Store(cells, at, data), i, j, k);
    ByteOfCell(cells, i, j, k);
    KeptAt(cells, at, data, i);
  }

  /** Storing cells is storing their bytes. */
  lemma StoreCells(cells: seq<Int32>, at: nat, data: seq<Int32>)
    requires at + |data| <= |cells|
    ensures AllBytes(Store(cells, at, data)) == Store(AllBytes(cells), 4 * at, AllBytes(data))
  {
    hide AllBytes, Bytes, Store;
    var a, b := AllBytes(Store(cells, at, data)), Store(AllBytes(cells), 4 * at, AllBytes(data));
    forall k | 0 <= k < |a|
      ensures a[k] == b[k]
    {
      StoredByte(cells, at, data, k / 4, k % 4, k);
    }
  }

  lemma StoredByte(cells: seq<Int32>, at: nat, data: seq<Int32>, i: nat, j: nat, k: nat)
    requires at + |data| <= |cells| && i < |cells| && j < 4 && k == 4 * i + j
    ensures AllBytes(Store(cells, at, data))[k] == Store(AllBytes(cells), 4 * at, AllBytes(data))[k]
  {
    hide AllBytes, Bytes, Store;
    if at <= i < at + |data| {
      var i', k' := i - at, k - 4 * at;
      StoredInside(cells, at, data, i, i', j, k, k');
      StoredAt(AllBytes(cells), 4 * at, AllBytes(data), k, k');
    } else {
      StoredOutside(cells, at, data, i, j, k);
      KeptAt(AllBytes(cells), 4 * at, AllBytes(data), k);
    }
  }

  // --- int8 operands as bytes ---

  /** The two's-complement bytes of int8 values. */
  function Bytes8(data: seq<Int8>): (b: seq<Byte>)
    ensures |b| == |data|
  {
    seq<Byte>(|data|, i requires 0 <= i < |data| => if data[i] < 0 then data[i] as int + 256 else data[i])
  }

  // --- the coprocessor's two memories as word arrays ---

  /** The word array holds the operand memory of a device: every byte is that int8 modulo 2^8. */
  ghost predicate HoldsOperands(ram: WordRam, rd: seq<Int8>)
    reads ram.mem
  {
    ram.Valid() && ram.Size() == |rd| && forall i :: 0 <= i < |rd| ==> ram.Flat()[i] == rd[i] as int % 256
  }

  /** The word array holds its result memory: the four bytes of each int32 modulo 2^32, the lowest first. */
  ghost predicate HoldsResults(ram: WordRam, wr: seq<Int32>)
    reads ram.mem
  {
    ram.Valid() && ram.Size() == 4 * |wr| && forall i :: 0 <= i < |wr| ==> HoldsCell(ram.Flat(), 4 * i, wr[i])
  }

  /** Bytes `k .. k + 4` of a memory are those of an int32. */
  predicate HoldsCell(bytes: seq<Byte>, k: nat, v: Int32)
    requires k + 4 <= |bytes|
  {
    bytes[k] == v as int % 256 && bytes[k + 1] == v as int / 256 % 256 &&
    bytes[k + 2] == v as int / 65536 % 256 && bytes[k + 3] == v as int / 16777216 % 256
  }

  lemma HeldDigits(bytes: seq<Byte>, k: nat, v: Int32)
    requires k + 4 <= |bytes|
    requires bytes[k] == Bytes(v)[0] && bytes[k + 1] == Bytes(v)[1] && bytes[k + 2] == Bytes(v)[2] && bytes[k + 3] == Bytes(v)[3]
    ensures HoldsCell(bytes, k, v)
  {
  }

  /** The bytes of a memory of cells. */
  lemma {:induction false} BytesOfCells(cells: seq<Int32>, i: nat)
    requires i < |cells|
    ensures HoldsCell(AllBytes(cells), 4 * i, cells[i])
  {
    hide AllBytes, Bytes;
    ByteOfCell(cells, i, 0, 4 * i);
    ByteOfCell(cells, i, 1, 4 * i + 1);
    ByteOfCell(cells, i, 2, 4 * i + 2);
    ByteOfCell(cells, i, 3, 4 * i + 3);
    HeldDigits(AllBytes(cells), 4 * i, cells[i]);
  }

  /** Only these bytes hold these cells. */
  lemma {:induction false} HeldBytes(bytes: seq<Byte>, cells: seq<Int32>)
    requires |bytes| == 4 * |cells| && forall i :: 0 <= i < |cells| ==> HoldsCell(bytes, 4 * i, cells[i])
    ensures bytes == AllBytes(cells)
  {
    forall k | 0 <= k < |bytes|
      ensures bytes[k] == AllBytes(cells)[k]
    {
      BytesOfCells(cells, k / 4);
      assert HoldsCell(bytes, 4 * (k / 4), cells[k / 4]);
      hide AllBytes;
    }
  }

  /** MEMW on the operand RAM is `Device.MemWrite` on its memory. */
  method StoreOperands(ram: WordRam, at: nat, data: seq<Int8>, ghost rd: seq<Int8>)
    requires HoldsOperands(ram, rd) && at + |data| <= |rd|
    modifies ram.mem
    ensures HoldsOperands(ram, Store(rd, at, data))
    ensures forall k :: 0 <= k < |rd| ==>
      ram.Flat()[k] == if at <= k < at + |data| then data[k - at] as int % 256 else old(ram.Flat())[k]
  {
    ram.MemWrite(at, Bytes8(data));
  }

  /** A result row written by the hardware is a store of its bytes. */
  method StoreResults(ram: WordRam, at: nat, row: seq<Int32>, ghost wr: seq<Int32>)
    requires HoldsResults(ram, wr) && at + |row| <= |wr|
    modifies ram.mem
    ensures HoldsResults(ram, Store(wr, at, row))
  {
    HeldBytes(ram.Flat(), wr);
    StoreCells(wr, at, row);
    hide AllBytes, HoldsCell;
    ram.MemWrite(4 * at, AllBytes(row));
    forall i | 0 <= i < |wr|
      ensures HoldsCell(ram.Flat(), 4 * i, Store(wr, at, row)[i])
    {
      BytesOfCells(Store(wr, at, row), i);
    }
  }

  /** MEMR on the result RAM, its bytes read as little-endian int32, is `Device.MemRead` on its memory. */
  method LoadResults(ram: WordRam, at: nat, n: nat, ghost wr: seq<Int32>) returns (cells: seq<Int32>)
    requires HoldsResults(ram, wr) && at + n <= |wr|
    ensures cells == wr[at..at + n]
    ensures forall i :: 0 <= i < n ==> ReadsAs(ram.Flat(), 4 * (at + i), cells[i])
  {
    hide AllBytes, Cell, HoldsCell;
    HeldBytes(ram.Flat(), wr);
    assert 4 * at + 4 * n <= ram.Size();
    var raw := ram.MemRead(4 * at, 4 * n);
    cells := [];
    for i := 0 to n
      invariant cells == wr[at..at + i]
    {
      LoadCell(wr, at + i);
      RawCell(AllBytes(wr), 4 * at, n, i);
      cells := cells + [Cell(raw[4 * i..4 * i + 4])];
    }
    forall i | 0 <= i < n
      ensures ReadsAs(ram.Flat(), 4 * (at + i), cells[i])
    {
      HeldReadsAs(ram.Flat(), 4 * (at + i), wr[at + i]);
    }
  }

  /** The int32 is congruent modulo 2^32 to the little-endian value of the four bytes. */
  predicate ReadsAs(bytes: seq<Byte>, k: nat, v: Int32)
    requires k + 4 <= |bytes|
  {
    (bytes[k] as int + 256 * bytes[k + 1] as int + 65536 * bytes[k + 2] as int + 16777216 * bytes[k + 3] as int - v as int) % 0x1_0000_0000 == 0
  }

  /** Writing an int32 and reading it back agree on the byte order. */
  lemma HeldReadsAs(bytes: seq<Byte>, k: nat, v: Int32)
    requires k + 4 <= |bytes| && HoldsCell(bytes, k, v)
    ensures ReadsAs(bytes, k, v)
  {
    BytesAddUp(v);
  }

  lemma RawCell<T>(b: seq<T>, lo: nat, n: nat, i: nat)
    requires lo + 4 * n <= |b| && i < n
    ensures b[lo..lo + 4 * n][4 * i..4 * i + 4] == b[lo + 4 * i..lo + 4 * i + 4]
  {
    var x, y := b[lo..lo + 4 * n][4 * i..4 * i + 4], b[lo + 4 * i..lo + 4 * i + 4];
    assert |x| == |y| == 4;
    forall k | 0 <= k < 4 ensures x[k] == y[k] { assert x[k] == b[lo + (4 * i + k)]; }
  }
}
