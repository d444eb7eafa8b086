/**
 Proper time: the allocator of `_seq` for one origin.

 Within a transaction the counter row is read once and written back once, at commit; every
 allocation between is an increment of the cache.
 */
module Clock {
  import opened Folds
  import opened Tables

  /** The last value handed out, as the open transaction sees it. */
  function Now(cache: Option<int>, d: Db, origin: string): int {
    if cache.Some? then cache.value else LastSeq(d, origin)
  }

  class SeqAllocator {
    const origin: string
    var cache: Option<int>
    var dirty: bool

    constructor (origin: string)
      ensures this.origin == origin && cache == None && !dirty
    {
      this.origin := origin;
      cache, dirty := None, false;
    }

    method Begin()
      modifies this
      ensures cache == None && !dirty
    {
      cache, dirty := None, false;
    }

    method Discard()
      modifies this
      ensures cache == None && !dirty
    {
      cache, dirty := None, false;
    }

    method End()
      modifies this
      ensures cache == None && !dirty
    {
      cache, dirty := None, false;
    }

    /** The database with the mark raised to the cache; None is the failed int() of an empty
        cache: `dirty` survived a restore that emptied the cache again. */
    method Flush(d: Db) returns (r: Option<Db>)
      modifies this
      ensures r.None? <==> old(dirty) && old(cache).None?
      ensures r.Some? && !old(dirty) ==> r.value == d
      ensures r.Some? && old(dirty) ==>
                old(cache).Some? &&
                r.value == d.(seqs := d.seqs[origin :=
                  SeqRow(if origin in d.seqs then Max(d.seqs[origin].last, old(cache).value)
                      else old(cache).value, true)])
      ensures r.Some? ==> !dirty
      ensures cache == old(cache)
    {
      if !dirty { return Some(d); }
      if cache.None? { return None; }
      var last := cache.value;
      if origin in d.seqs { last := Max(d.seqs[origin].last, last); }
      r := Some(d.(seqs := d.seqs[origin := SeqRow(last, true)]));
      dirty := false;
    }

    method Allocate(d: Db) returns (s: int)
      modifies this
      ensures s == Now(old(cache), d, origin) + 1
      ensures cache == Some(s) && dirty
    {
      if cache.None? { cache := Some(LastSeq(d, origin)); }
      cache := Some(cache.value + 1);
      dirty := true;
      s := cache.value;
    }

    method Mark() returns (snapshot: Option<int>)
      ensures snapshot == cache
    {
      snapshot := cache;
    }

    /** Only the cache comes back: `dirty` keeps whatever the rolled-back write made it. */
    method Restore(snapshot: Option<int>)
      modifies this`cache
      ensures cache == snapshot
    {
      cache := snapshot;
    }
  }
}
