/** Blocks and entries on the heap. `live` is false once the object has been freed; fields are read through members
    that require a live object, so no verified code reads freed memory, and free requires it, so none frees twice. */
module Blocks {
  import opened CStrings
  import opened Options
  import opened ListSpec

  class Block {
    const datasize: int
    const data: array?<Byte>
    ghost var live: bool

    constructor (datasize: int, data: array?<Byte>)
      ensures this.datasize == datasize && this.data == data && live
    {
      this.datasize, this.data, live := datasize, data, true;
    }

    function Size(): int
      requires live
      reads this
    {
      datasize
    }

    function Data(): array?<Byte>
      requires live
      reads this
    {
      data
    }

    /** The buffer is as long as the block says. */
    predicate WellFormed() {
      data != null ==> datasize <= data.Length
    }

    /** A block that block_duplicate made. */
    ghost predicate Owned()
      reads this
    {
      live && data != null && data.Length == datasize > 0
    }

    ghost function Contents(): Bytes
      requires data != null && 0 <= datasize <= data.Length
      reads data
    {
      data[..datasize]
    }
  }

  /** block_create does not copy: the block shares the caller's buffer. */
  method BlockCreate(size: int, data: array?<Byte>) returns (b: Block?)
    ensures b == null <==> size <= 0 || data == null
    ensures b != null ==> fresh(b) && b.live && b.datasize == size && b.data == data
  {
    if size <= 0 || data == null {
      return null;
    }
    b := new Block(size, data);
  }

  /** True if the block can be duplicated. */
  ghost predicate Copyable(b: Block?) {
    b != null && b.datasize > 0 && b.data != null
  }

  method BlockDuplicate(b: Block?) returns (d: Block?)
    requires b != null ==> b.live && b.WellFormed()
    ensures d != null <==> Copyable(b)
    ensures d != null ==> fresh(d) && fresh(d.data) && d.Owned() && d.data[..] == b.Contents()
  {
    if b == null || b.Size() <= 0 || b.Data() == null {
      return null;
    }
    var buffer := new Byte[b.Size()](i requires 0 <= i < b.datasize reads b.data => b.data[i]);
    d := new Block(b.Size(), buffer);
    assert d.data[..] == b.Contents();
  }

  method BlockDestroy(b: Block?) returns (r: int)
    requires b != null ==> b.live
    modifies (if b == null then {} else {b})`live
    ensures r == if b == null then -1 else 0
    ensures b != null ==> !b.live
  {
    if b == null {
      return -1;
    }
    b.live := false;
    r := 0;
  }

  class Entry {
    const key: Key
    const value: Block
    ghost var live: bool

    constructor (key: Key, value: Block)
      ensures this.key == key && this.value == value && live
    {
      this.key, this.value, live := key, value, true;
    }

    function Key(): Key
      requires live
      reads this
    {
      key
    }

    function Value(): Block
      requires live
      reads this
    {
      value
    }

    /** An entry with a block and a buffer of its own. */
    ghost predicate Owned()
      reads this, value
    {
      live && value.Owned()
    }

    ghost function PairOf(): Pair
      requires value.data != null
      reads value.data
    {
      Pair(key, value.data[..])
    }
  }

  method EntryCreate(key: Key, value: Block?) returns (e: Entry?)
    ensures e == null <==> value == null
    ensures e != null ==> fresh(e) && e.live && e.key == key && e.value == value
  {
    if value == null {
      return null;
    }
    e := new Entry(key, value);
  }

  method EntryDuplicate(e: Entry?) returns (d: Entry?)
    requires e != null ==> e.live && e.value.live && e.value.WellFormed()
    ensures d != null <==> e != null && Copyable(e.value)
    ensures d != null ==> fresh(d) && fresh(d.value) && fresh(d.value.data) && d.Owned()
    ensures d != null ==> d.key == e.key && d.value.data[..] == e.value.Contents()
  {
    if e == null {
      return null;
    }
    var value := BlockDuplicate(e.Value());
    if value == null {
      return null;
    }
    d := EntryCreate(e.Key(), value);
  }

  method EntryDestroy(e: Entry?) returns (r: int)
    requires e != null ==> e.live && e.value.live
    modifies (if e == null then {} else {e})`live, (if e == null then {} else {e.value})`live
    ensures r == if e == null then -1 else 0
    ensures e != null ==> !e.live && !e.value.live
  {
    if e == null {
      return -1;
    }
    var _ := BlockDestroy(e.Value());
    e.live := false;
    r := 0;
  }
}
