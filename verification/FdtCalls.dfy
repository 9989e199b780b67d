/** What a caller of fdt_first_region() and fdt_next_region() gets in all. */
module FdtCalls {
  import opened FdtTags
  import opened FdtIter
  import opened FdtResume
  import opened FdtPass
  import opened FdtState
  import opened FdtExact

  /** There is less left to do after a call that has delivered a region. */
  lemma CallsLess(job: Job, n: nat)
    requires Next(job, After(job, FIRST, n), []).code == 0
    ensures Less(After(job, FIRST, n + 1), After(job, FIRST, n))
  {
    NextLess(job, After(job, FIRST, n), []);
    AfterNext(job, FIRST, n);
  }

  /** One more call, after the one that has put `info.slot`. */
  method TakeNext(info: RegionState, job: Job, path: array<char>, regions: seq<Region>)
    returns (r: int, regions': seq<Region>)
    requires info.Gave(job, path, Next(job, After(job, FIRST, |regions|), []), 0) && AllDelivered(job, regions)
    modifies info, info.stack, path
    ensures |regions'| == |regions| + 1 && AllDelivered(job, regions')
    ensures info.Gave(job, path, Next(job, After(job, FIRST, |regions'|), []), r)
  {
    AfterNext(job, FIRST, |regions|);
    DeliveredNext(job, regions, info.slot);
    regions' := regions + [info.slot];
    r := info.NextRegion(job, path);
  }

  /** Take the first region, then one after the other until a call does not return 0. */
  method Collect(info: RegionState, job: Job, path: array<char>) returns (r: int, regions: seq<Region>)
    requires info.stack.Length == FDT_MAX_DEPTH && 0 < path.Length == job.pathLen
    requires forall k :: 0 <= k < |job.blob.tags| && job.blob.tags[k].Prop? ==> job.blob.tags[k].key.Some?
    modifies info, info.stack, path
    ensures Collected(job, regions, r)
  {
    r := info.FirstRegion(job, path);
    regions := [];
    while r == 0
      invariant info.Gave(job, path, Next(job, After(job, FIRST, |regions|), []), r) && AllDelivered(job, regions)
      decreases DONE_STRINGS - After(job, FIRST, |regions|).done,
                |job.blob.tags| + 1 - After(job, FIRST, |regions|).pos, Apart(After(job, FIRST, |regions|).levels)
    {
      CallsLess(job, |regions|);
      r, regions := TakeNext(info, job, path, regions);
    }
  }

  /**
   All calls of a caller. They end for every tree, callback and set of flags. Where they are faithful to a
   single pass that succeeds, they give its regions; with FDT_REG_SUPERNODES, if the single pass fails, they
   give its regions but the last, and its error. For the tags of a tree those regions are what the tree says.
   */
  method AllRegions(info: RegionState, job: Job, path: array<char>) returns (r: int, regions: seq<Region>)
    requires info.stack.Length == FDT_MAX_DEPTH && 0 < path.Length == job.pathLen
    requires forall k :: 0 <= k < |job.blob.tags| && job.blob.tags[k].Prop? ==> job.blob.tags[k].key.Some?
    modifies info, info.stack, path
    ensures var full := Full(job, FIRST, []);
      && (Faithful(job) && full.Ok? ==> r == FDT_ERR_NOTFOUND && regions == full.value)
      && (job.flags.supernodes ==> Faithful(job))
      && (job.flags.supernodes && full.Err? ==> r == full.code && regions == ButLast(Through(job, FIRST, []).out))
    ensures forall nops: nat, body :: Holding(job, nops, body) && Faithful(job) ==> TreeCalls(job, nops, body, r, regions)
  {
    r, regions := Collect(info, job, path);
    RunEnds(job, regions, r);
    if job.flags.supernodes { SupernodesFaithful(job); }
    forall nops: nat, body | Holding(job, nops, body) && Faithful(job) ensures TreeCalls(job, nops, body, r, regions) {
      CallsKeepTree(job, nops, body, r, regions);
    }
  }
}
