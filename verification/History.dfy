/**
 * The journal over whole runs, crashes and reopens included: transaction ids strictly increase,
 * every acknowledgement closes an earlier WriteBegin of the same transaction, chunk and generation,
 * and the next transaction id is always above every recorded one. No guard is needed.
 */
module History {
  import opened Wrappers
  import opened Mapper
  import opened Wal
  import opened Store
  import opened Operations
  import opened Recovery
  import opened Writing
  import opened Runs

  ghost predicate Logged(s: State) {
    WellFormed(s.journal) && TxidsBelow(s.journal, s.nextTxid)
  }

  /** Every append of t is one that the journal may take when it comes. */
  predicate Admissible(s: State, t: seq<Effect>)
    decreases t
  {
    t != [] ==>
      && (t[0].Append? ==> MayAppend(s.journal, s.nextTxid, t[0].event))
      && Admissible(Apply(s, t[0]), t[1..])
  }

  lemma {:induction false} AdmissibleKeeps(s: State, t: seq<Effect>, k: nat)
    requires Logged(s) && Admissible(s, t) && k <= |t|
    ensures Logged(Run(s, t[..k]))
    decreases k
  {
    if k > 0 {
      if t[0].Append? {
        AppendKeepsWellFormed(s.journal, s.nextTxid, t[0].event);
      }
      AdmissibleKeeps(Apply(s, t[0]), t[1..], k - 1);
      assert t[..k][0] == t[0] && t[..k][1..] == t[1..][..k - 1];
    }
  }

  lemma {:induction false} AdmissibleConcat(s: State, a: seq<Effect>, b: seq<Effect>)
    requires Admissible(s, a) && Admissible(Run(s, a), b)
    ensures Admissible(s, a + b)
    decreases a
  {
    if a == [] {
      assert a + b == b;
    } else {
      AdmissibleConcat(Apply(s, a[0]), a[1..], b);
      assert (a + b)[0] == a[0] && (a + b)[1..] == a[1..] + b;
    }
  }

  lemma {:induction false} QuietIsAdmissible(s: State, t: seq<Effect>)
    requires Quiet(t)
    ensures Admissible(s, t)
    decreases t
  {
    if t != [] {
      assert forall i :: 0 <= i < |t[1..]| ==> t[1..][i] == t[i + 1];
      QuietIsAdmissible(Apply(s, t[0]), t[1..]);
    }
  }

  lemma CommitAdmissible(cfg: Config, s: State, sp: Span, data: seq<byte>)
    ensures Admissible(s, Commit(cfg, s, sp, data))
  {
    var t := Commit(cfg, s, sp, data);
    var s1 := Apply(s, t[0]);
    var s2 := Apply(s1, t[1]);
    var s3 := Apply(s2, t[2]);
    assert t[1..][1..][1..] == [t[3]] && t[1..][1..] == [t[2], t[3]] && [t[3]][1..] == [];
    assert s3.journal == s.journal + [t[0].event];
    assert Acknowledges(t[0].event, t[3].event);
    assert Admissible(s3, [t[3]]);
    assert Admissible(s2, [t[2], t[3]]);
    assert Admissible(s1, t[1..]);
  }

  lemma WriteSpanAdmissible(cfg: Config, s: State, sp: Span, data: seq<byte>)
    requires Within(sp, data) && WriteSpan(cfg, s, sp, data).Ok?
    ensures Admissible(s, WriteSpan(cfg, s, sp, data).value)
  {
    var a := Prepare(cfg, s, sp).value;
    PrepareQuiet(cfg, s, sp);
    QuietIsAdmissible(s, a);
    CommitAdmissible(cfg, Run(s, a), sp, SpanData(sp, data));
    AdmissibleConcat(s, a, Commit(cfg, Run(s, a), sp, SpanData(sp, data)));
  }

  lemma {:induction false} WriteSpansAdmissible(cfg: Config, s: State, spans: seq<Span>, data: seq<byte>)
    requires AllWithin(spans, data)
    ensures Admissible(s, WriteSpans(cfg, s, spans, data).trace)
    decreases |spans|
  {
    hide WriteSpan, Run;
    if spans != [] && WriteSpan(cfg, s, spans[0], data).Ok? {
      WriteSpanAdmissible(cfg, s, spans[0], data);
      WriteSpansAdmissible(cfg, Run(s, WriteSpan(cfg, s, spans[0], data).value), spans[1..], data);
      AdmissibleConcat(s, WriteSpan(cfg, s, spans[0], data).value,
                       WriteSpans(cfg, Run(s, WriteSpan(cfg, s, spans[0], data).value), spans[1..], data).trace);
    }
  }

  lemma WriteAdmissible(cfg: Config, s: State, offset: nat, data: seq<byte>)
    ensures Admissible(s, Write(cfg, s, offset, data).trace)
  {
    if Spans(offset, |data|, cfg.geo).Ok? {
      var spans := Spans(offset, |data|, cfg.geo).value;
      SpansWithin(offset, data, cfg.geo);
      WriteSpansAdmissible(cfg, s, spans, data);
      EvictAfterAdmissible(cfg, s, WriteSpans(cfg, s, spans, data).trace);
    }
  }

  lemma EvictAfterAdmissible(cfg: Config, s: State, t: seq<Effect>)
    requires Admissible(s, t)
    ensures Admissible(s, t + Evict(cfg, Run(s, t)))
  {
    EvictQuiet(cfg, Run(s, t));
    QuietIsAdmissible(Run(s, t), Evict(cfg, Run(s, t)));
    AdmissibleConcat(s, t, Evict(cfg, Run(s, t)));
  }

  lemma TraceAdmissible(cfg: Config, s: State, op: Op)
    ensures Admissible(Begin(s, op), TraceOf(cfg, s, op))
  {
    match op
    case WriteOp(offset, data) => WriteAdmissible(cfg, s, offset, data);
    case ReadOp(offset, len) =>
      if Spans(offset, len, cfg.geo).Ok? {
        ReadQuiet(cfg, s, Spans(offset, len, cfg.geo).value);
        QuietIsAdmissible(s, TraceOf(cfg, s, op));
      }
    case SyncOp =>
      SyncQuiet(cfg, s);
      QuietIsAdmissible(s, TraceOf(cfg, s, op));
    case EvictOp =>
      EvictQuiet(cfg, s);
      QuietIsAdmissible(s, TraceOf(cfg, s, op));
    case FsckOp(order) =>
      FsckIsSteps(cfg, s, order);
      StepsQuiet(cfg, s, TraceOf(cfg, s, op));
      QuietIsAdmissible(s, TraceOf(cfg, s, op));
    case OpenOp(order) =>
      RecoverIsSteps(cfg, Loaded(s), order);
      StepsQuiet(cfg, Loaded(s), TraceOf(cfg, s, op));
      QuietIsAdmissible(Loaded(s), TraceOf(cfg, s, op));
  }

  lemma LoadedLogged(s: State)
    requires WellFormed(s.journal)
    ensures Logged(Loaded(s))
  {
    ReopenedTxidIsFresh(s.journal);
  }

  lemma RunLogged(s: State, t: seq<Effect>)
    requires Logged(s) && Admissible(s, t)
    ensures Logged(Run(s, t))
  {
    AdmissibleKeeps(s, t, |t|);
    assert t[..|t|] == t;
  }

  lemma ReopenLogged(cfg: Config, s: State, order: seq<nat>)
    requires WellFormed(s.journal)
    ensures Logged(Reopened(cfg, s, order))
  {
    LoadedLogged(s);
    RecoverIsSteps(cfg, Loaded(s), order);
    StepsQuiet(cfg, Loaded(s), Recover(cfg, Loaded(s), order));
    QuietIsAdmissible(Loaded(s), Recover(cfg, Loaded(s), order));
    RunLogged(Loaded(s), Recover(cfg, Loaded(s), order));
  }

  lemma FsckLogged(cfg: Config, s: State, order: seq<nat>)
    requires Logged(s)
    ensures Logged(Run(s, Fsck(cfg, s, order)))
  {
    FsckIsSteps(cfg, s, order);
    StepsQuiet(cfg, s, Fsck(cfg, s, order));
    QuietIsAdmissible(s, Fsck(cfg, s, order));
    RunLogged(s, Fsck(cfg, s, order));
  }

  lemma BeginLogged(s: State, op: Op)
    requires Logged(s)
    ensures Logged(Begin(s, op))
  {
    LoadedLogged(s);
  }

  lemma TornLogged(s: State, t: seq<Effect>, k: nat, junk: seq<byte>)
    requires Logged(s) && Admissible(s, t) && k <= |t|
    ensures WellFormed(Torn(s, t, k, junk).journal)
  {
    AdmissibleKeeps(s, t, k);
  }

  lemma StepLogged(cfg: Config, s: State, step: Step)
    requires Logged(s) && Possible(cfg, s, step)
    ensures Logged(After(cfg, s, step))
  {
    match step
    case Completes(op) =>
      BeginLogged(s, op);
      TraceAdmissible(cfg, s, op);
      RunLogged(Begin(s, op), TraceOf(cfg, s, op));
    case Crashes(op, at, junk, boots, order) =>
      BeginLogged(s, op);
      TraceAdmissible(cfg, s, op);
      TornLogged(Begin(s, op), TraceOf(cfg, s, op), at, junk);
      BootsKeep(cfg, CrashState(cfg, s, step), boots, []);
      ReopenLogged(cfg, AfterBoots(cfg, CrashState(cfg, s, step), boots), order);
    case Loses(gone, live, order) =>
      if live {
        FsckLogged(cfg, LoseFiles(s, gone), order);
      } else {
        ReopenLogged(cfg, LoseFiles(s, gone), order);
      }
    case Vanishes(_) =>
    case Outage(_) =>
  }

  /** The journal is well formed, and its next transaction id fresh, after every possible run. */
  lemma {:induction false} JournalWellFormedOverRuns(cfg: Config, s: State, steps: seq<Step>)
    requires Logged(s) && PossibleRun(cfg, s, steps)
    ensures Logged(RunAll(cfg, s, steps))
    decreases steps
  {
    hide Possible, After, Logged;
    if steps != [] {
      StepLogged(cfg, s, steps[0]);
      JournalWellFormedOverRuns(cfg, After(cfg, s, steps[0]), steps[1..]);
    }
  }
}
