/** Assembly items (libevmasm/AssemblyItem.h, libevmasm/AssemblyItem.cpp). */
module Items {
  import opened Wrappers
  import opened Words
  import opened Instructions

  /** One item of an assembly. Two items are equal when their kind and their data are equal;
      source locations and jump types play no role in that comparison and are not kept. */
  datatype Item =
    | UndefinedItem(data: Word)
    | Operation(instr: Opcode)
    | Push(data: Word)
    | PushString(data: Word)
    | PushTag(data: Word)
    | PushSub(data: Word)
    | PushSubSize(data: Word)
    | PushProgramSize(data: Word)
    | Tag(data: Word)
    | PushData(data: Word)
    | PushLibraryAddress(data: Word)
    | PushDeployTimeAddress(data: Word)

  /** Position of the item's kind in the enumeration of item types. */
  function Kind(item: Item): nat {
    match item
    case UndefinedItem(_) => 0
    case Operation(_) => 1
    case Push(_) => 2
    case PushString(_) => 3
    case PushTag(_) => 4
    case PushSub(_) => 5
    case PushSubSize(_) => 6
    case PushProgramSize(_) => 7
    case Tag(_) => 8
    case PushData(_) => 9
    case PushLibraryAddress(_) => 10
    case PushDeployTimeAddress(_) => 11
  }

  function Payload(item: Item): Word {
    if item.Operation? then item.instr else item.data
  }

  predicate IsDupItem(item: Item) {
    item.Operation? && IsDup(item.instr)
  }

  predicate IsSwapItem(item: Item) {
    item.Operation? && IsSwap(item.instr)
  }

  predicate IsCommutativeItem(item: Item) {
    item.Operation? && IsCommutative(item.instr)
  }

  /** Number of bytes needed to write n, zero for zero. */
  function BytesRequired(n: nat): (r: nat)
    ensures n < Pow256(r)
    ensures r > 0 ==> Pow256(r - 1) <= n
  {
    if n == 0 then 0 else
      var r := 1 + BytesRequired(n / 256);
      assert Pow256(r) == 256 * Pow256(r - 1);
      assert r > 1 ==> Pow256(r - 1) == 256 * Pow256(r - 2);
      r
  }

  function Pow256(n: nat): (r: nat)
    ensures r > 0
  {
    if n == 0 then 1 else 256 * Pow256(n - 1)
  }

  lemma Pow256Monotone(m: nat, n: nat)
    requires m <= n
    ensures Pow256(m) <= Pow256(n)
  {
    if m < n {
      Pow256Monotone(m, n - 1);
    }
  }

  lemma BytesRequiredMonotone(a: nat, b: nat)
    requires a <= b
    ensures BytesRequired(a) <= BytesRequired(b)
  {
    var ra, rb := BytesRequired(a), BytesRequired(b);
    if rb < ra {
      Pow256Monotone(rb, ra - 1);
    }
  }

  function Max(a: int, b: int): int { if a < b then b else a }

  function Min(a: int, b: int): int { if a < b then a else b }

  /** An upper bound for the bytes taken by an item when addresses take `addressLength` bytes.
      Undefined items make the original raise an error; they never reach the assembler. */
  function ItemBytes(item: Item, addressLength: nat): nat {
    match item
    case Operation(_) => 1
    case Tag(_) => 1
    case PushString(_) => 33
    case Push(d) => 1 + Max(1, BytesRequired(d))
    case PushSubSize(_) => 5
    case PushProgramSize(_) => 5
    case PushTag(_) => 1 + addressLength
    case PushData(_) => 1 + addressLength
    case PushSub(_) => 1 + addressLength
    case PushLibraryAddress(_) => 21
    case PushDeployTimeAddress(_) => 21
    case UndefinedItem(_) => 0
  }

  function CodeBytes(items: seq<Item>, addressLength: nat): nat {
    if items == [] then 0 else ItemBytes(items[0], addressLength) + CodeBytes(items[1..], addressLength)
  }

  function Arguments(item: Item): nat {
    if item.Operation? then ArgCount(item.instr) else 0
  }

  function ReturnValues(item: Item): nat {
    match item
    case Operation(op) => RetCount(op)
    case Tag(_) => 0
    case UndefinedItem(_) => 0
    case _ => 1
  }

  function Deposit(item: Item): int {
    ReturnValues(item) - Arguments(item)
  }

  // ----- tags of sub-assemblies -----

  const SUB_BASE: int := 0x1_0000_0000_0000_0000

  /** The sub-assembly a tag refers to (none for a tag of the assembly itself) and the tag there. */
  function SplitForeign(data: Word): (Option<nat>, nat) {
    var hi := (data / SUB_BASE) % SUB_BASE;
    (if hi == 0 then None else Some(hi - 1), data % SUB_BASE)
  }

  predicate IsLocal(data: Word) {
    SplitForeign(data).0.None?
  }
}
