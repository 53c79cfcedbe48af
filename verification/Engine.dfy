/** The engine plugin's choice of the stored block to restart from. */
module Engine {
  import opened Types

  /** The stored canonical blocks by height, the height of the header stage, and the stored
      last irreversible EVM number. */
  datatype Store = Store(blocks: map<nat, Block>, headNum: nat, lib: Option<nat>)

  /** Every stored block sits at its own height. */
  ghost predicate ValidStore(d: Store) {
    forall h :: h in d.blocks ==> d.blocks[h].header.number == h
  }

  function Read(d: Store, h: nat): Option<Block> {
    if h in d.blocks then Some(d.blocks[h]) else None
  }

  /** A stored block that carries a native id. */
  predicate HasId(d: Store, h: nat) {
    h in d.blocks && d.blocks[h].header.prevRandao != 0
  }

  /** The block found by searching down from `from`; at height 0 the search takes whatever
      is stored there. */
  function Found(d: Store, from: nat): Option<Block> {
    if HasId(d, from) || from == 0 then Read(d, from) else Found(d, from - 1)
  }

  /** The search yields the highest block with a native id, and only without one does it
      yield the content of height 0. */
  lemma {:induction false} FoundIsHighest(d: Store, from: nat) returns (h: nat)
    ensures h <= from && Found(d, from) == Read(d, h)
    ensures HasId(d, h) || h == 0
    ensures forall k :: h < k <= from ==> !HasId(d, k)
  {
    if HasId(d, from) || from == 0 {
      h := from;
    } else {
      h := FoundIsHighest(d, from - 1);
    }
  }

  /** Searches down from `from` for a block with a native id. */
  method FindBlockWithValidEosId(d: Store, from: nat) returns (r: Option<Block>)
    ensures r == Found(d, from)
  {
    var height := from;
    r := Read(d, height);
    while !(r.Some? && r.value.header.prevRandao != 0) && 0 < height
      invariant r == Read(d, height) && Found(d, height) == Found(d, from)
    {
      height := height - 1;
      r := Read(d, height);
    }
  }

  /** Where the search starts: an explicit height, else the stored LIB capped by the head,
      else the head. */
  function Target(d: Store, height: Option<nat>): Option<nat> {
    match height
    case Some(h) => Some(h)
    case None =>
      match (d.lib, Read(d, d.headNum))
      case (Some(lib), Some(head)) => Some(if head.header.number < lib then head.header.number else lib)
      case (Some(lib), None) => Some(lib)
      case (None, Some(head)) => Some(head.header.number)
      case (None, None) => None
  }

  /** `h` is the highest height at or below `from` with a native id, or 0 if there is none. */
  ghost predicate HighestAt(d: Store, from: nat, h: nat) {
    && h <= from && (HasId(d, h) || h == 0)
    && forall k :: h < k <= from ==> !HasId(d, k)
  }

  ghost predicate Highest(d: Store, from: nat, r: Option<Block>) {
    exists h: nat :: HighestAt(d, from, h) && r == Read(d, h)
  }

  /** What the search finds from there. */
  function Chosen(d: Store, height: Option<nat>): Option<Block> {
    match Target(d, height)
    case None => None
    case Some(t) => Found(d, t)
  }

  /** The block to restart from.  It never lies above the stored LIB or the head unless an
      explicit height asks for it, and it is the highest one with a native id. */
  method GetCanonicalBlockAtHeight(d: Store, height: Option<nat>) returns (r: Option<Block>)
    requires ValidStore(d)
    ensures r == Chosen(d, height)
    ensures height.Some? ==> Highest(d, height.value, r)
    ensures height.None? ==>
      match (d.lib, Read(d, d.headNum))
      case (Some(lib), None) => Highest(d, lib, r)
      case (Some(lib), Some(head)) =>
        if lib <= head.header.number then Highest(d, lib, r) else Highest(d, head.header.number, r)
      case (None, Some(head)) => Highest(d, head.header.number, r)
      case (None, None) => r.None?
    ensures height.None? && r.Some? ==>
      && (d.lib.Some? ==> r.value.header.number <= d.lib.value)
      && (Read(d, d.headNum).Some? ==> r.value.header.number <= d.headNum)
  {
    var target := 0;
    if height.None? {
      var header := Read(d, d.headNum);
      if d.lib.Some? {
        target := d.lib.value;
        if header.Some? && header.value.header.number < target {
          target := header.value.header.number;
        }
      } else {
        if header.None? {
          return None;
        }
        target := header.value.header.number;
      }
    } else {
      target := height.value;
    }
    ghost var h := FoundIsHighest(d, target);
    assert HighestAt(d, target, h);
    var found := FindBlockWithValidEosId(d, target);
    if found.None? {
      return None;
    }
    target := found.value.header.number;
    r := Read(d, target);
  }
}
