/** The theorems about runs, put together for a volume from its creation on. */
module NewVolume {
  import opened Wrappers
  import opened Wal
  import opened Store
  import opened Volume
  import opened Safety
  import opened Runs
  import opened Agreement
  import opened History
  import opened Freshness

  /** What every run so far has kept: the array, and the form of the journal. */
  ghost predicate Kept(cfg: Config, s: State, v: Cells) { Represents(cfg, s, v) && Logged(s) }

  lemma CreatedKept(cfg: Config, cloud: map<nat, seq<byte>>)
    requires cfg.Valid() && Fitting(cfg, cloud)
    ensures Kept(cfg, Created(cloud), Known(Images(cfg, cloud))) && Agreed(true, Created(cloud))
  {
    hide Represents;
    CreatedRepresents(cfg, cloud);
    forall c: nat
      ensures ChunkAgrees(true, Created(cloud), c)
    {
      assert LatestLocal([], c).None?;
    }
  }

  lemma AgreedEither(s: State, clean: bool)
    requires Agreed(true, s)
    ensures Agreed(clean, s)
  {
    assert forall c: nat :: ChunkAgrees(true, s, c) ==> ChunkAgrees(clean, s, c);
  }

  /**
   * From the creation of a volume on, over whatever objects the cloud holds, and over every run of guarded,
   * fresh writes and any other steps: the engine is the array of cells that started as those objects,
   * reads agree with it, the journal is well formed, and it agrees with the chunk states: with the Dirty
   * ones always, with the others unless files were lost while the machine was down after a crash.
   */
  lemma EveryRun(cfg: Config, cloud: map<nat, seq<byte>>, steps: seq<Step>)
    requires cfg.Valid() && Fitting(cfg, cloud) && PossibleRun(cfg, Created(cloud), steps)
    requires GuardedRun(cfg, Created(cloud), Known(Images(cfg, cloud)), steps) && FreshRun(cfg, Created(cloud), steps)
    ensures var s, v := Created(cloud), Known(Images(cfg, cloud));
            && Kept(cfg, RunAll(cfg, s, steps), ExpectedAll(cfg, s, v, steps))
            && ReadsAgree(cfg, s, v, steps)
            && Agreed(AllKeepFilesDown(steps), RunAll(cfg, s, steps))
  {
    hide Represents, PossibleRun, GuardedRun, RunAll, ExpectedAll, FreshRun, ReadsAgree, Agreed, Logged, Images,
         Created, AllKeepFilesDown;
    CreatedKept(cfg, cloud);
    EngineRefinesArray(cfg, Created(cloud), Known(Images(cfg, cloud)), steps);
    AgreedEither(Created(cloud), AllKeepFilesDown(steps));
    JournalAgreesOverRuns(AllKeepFilesDown(steps), cfg, Created(cloud), Known(Images(cfg, cloud)), steps);
    JournalWellFormedOverRuns(cfg, Created(cloud), steps);
  }

  /** Over an empty cloud the volume is all zeroes, so that nothing promised is unjournaled. */
  lemma EmptyIsZeroBased(cfg: Config)
    requires cfg.Valid()
    ensures ZeroBased(cfg, Created(map[]), Known(Images(cfg, map[])))
  {
    var v := Known(Images(cfg, map[]));
    forall c: nat
      ensures ChunkZeroBased(cfg, Created(map[]), v, c)
    {
      PartLength(v, cfg.geo, c);
    }
  }

  /**
   * A volume created over an empty cloud needs no guard but freshness: whatever the size of the cache and
   * the order of steps, all of the above holds over every possible run whose writes are fresh.
   */
  lemma FreshnessSuffices(cfg: Config, steps: seq<Step>)
    requires cfg.Valid() && PossibleRun(cfg, Created(map[]), steps) && FreshRun(cfg, Created(map[]), steps)
    ensures var s, v := Created(map[]), Known(Zeroes(cfg.geo.volume));
            && Kept(cfg, RunAll(cfg, s, steps), ExpectedAll(cfg, s, v, steps))
            && ReadsAgree(cfg, s, v, steps)
            && Agreed(AllKeepFilesDown(steps), RunAll(cfg, s, steps))
  {
    hide Represents, PossibleRun, GuardedRun, RunAll, ExpectedAll, FreshRun, ReadsAgree, Agreed, Logged, Created,
         ZeroBased, AllKeepFilesDown;
    CreatedKept(cfg, map[]);
    EmptyIsZeroBased(cfg);
    FreshRunGuarded(cfg, Created(map[]), Known(Images(cfg, map[])), steps);
    EveryRun(cfg, map[], steps);
    assert Images(cfg, map[]) == Zeroes(cfg.geo.volume);
  }
}
