/** The kernel contract (`MemoryKernel`): a content-addressed blob store and a table of
    named references.

    The digest is a parameter: any function from documents to addresses.  Nothing assumes
    it is injective.  Instead `collisionFree` records whether some write so far met a stored
    blob that differs from the data written, or produced the reserved address `nil`; what a
    reader relies on is proved for the runs in which that never happened. */
module Kernel {
  import opened Basics

  /** Blobs are never removed or replaced. */
  predicate Grown<H, D(==)>(before: map<H, D>, after: map<H, D>) {
    forall h :: h in before ==> h in after && after[h] == before[h]
  }

  class MemoryKernel<D(==), H(==), N(==)> {
    const hash: D -> H
    const nil: H
    var blobs: map<H, D>
    var roots: map<N, H>
    /** A monitor, not a field of the program.  A run is followed until it turns false. */
    var collisionFree: bool

    ghost predicate Valid()
      reads this
    {
      && (forall h :: h in blobs ==> hash(blobs[h]) == h)
      && (forall n :: n in roots ==> roots[n] in blobs)
      && (collisionFree ==> nil !in blobs)
    }

    constructor (hash: D -> H, nil: H)
      ensures Valid() && blobs == map[] && roots == map[] && collisionFree
      ensures this.hash == hash && this.nil == nil
    {
      this.hash := hash;
      this.nil := nil;
      blobs := map[];
      roots := map[];
      collisionFree := true;
    }

    method Write(data: D) returns (h: H)
      requires Valid()
      modifies this
      ensures Valid() && roots == old(roots)
      ensures h == hash(data)
      ensures blobs == if h in old(blobs) then old(blobs) else old(blobs)[h := data]
      ensures collisionFree <==> old(collisionFree) && h != nil && blobs[h] == data
    {
      h := hash(data);
      collisionFree := collisionFree && h != nil && (h in blobs ==> blobs[h] == data);
      if h !in blobs {
        blobs := blobs[h := data];
      }
    }

    method ReadBlob(h: H) returns (r: Option<D>)
      ensures r == if h in blobs then Some(blobs[h]) else None
    {
      if h !in blobs { return None; }
      return Some(blobs[h]);
    }

    /** Referential integrity: a name can only point at a stored blob. */
    method Reference(name: N, h: H) returns (ok: bool)
      requires Valid()
      modifies this`roots
      ensures Valid()
      ensures ok <==> h in blobs
      ensures roots == if ok then old(roots)[name := h] else old(roots)
    {
      if h !in blobs { return false; }
      roots := roots[name := h];
      return true;
    }

    method Resolve(name: N) returns (r: Option<H>)
      ensures r == if name in roots then Some(roots[name]) else None
    {
      if name !in roots { return None; }
      return Some(roots[name]);
    }
  }
}
