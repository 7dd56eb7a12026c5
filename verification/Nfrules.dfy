/** Choosing a backend, pairing the two address families, and starting again after crashes. */
module Nfrules {
  import opened Wrappers
  import opened Chains
  import opened Iptables
  import opened Nftables
  import opened Runs

  /** The options one run is started with. */
  datatype Options = Options(skip: bool, ipv4: bool, ipv6: bool, config4: Config, config6: Config, nft4: NftConfig, nft6: NftConfig)

  /** The iptables half of a setup: the second family is tried only after the first. */
  ghost predicate TablesSetUp(o: Options, from4: Past<Table>, to4: Past<Table>, from6: Past<Table>, to6: Past<Table>, ok: bool) {
    && (!o.ipv4 ==> to4 == from4) && (!o.ipv6 ==> to6 == from6)
    && if o.ipv4 && SetUp(from4, o.config4, to4, false) then !ok && to6 == from6
       else (o.ipv4 ==> SetUp(from4, o.config4, to4, true)) && (o.ipv6 ==> SetUp(from6, o.config6, to6, ok)) && (!o.ipv6 ==> ok)
  }

  /** The nft half. */
  ghost predicate NftTablesSetUp(o: Options, from4: Past<Option<NftTable>>, to4: Past<Option<NftTable>>,
                                 from6: Past<Option<NftTable>>, to6: Past<Option<NftTable>>, ok: bool) {
    && (!o.ipv4 ==> to4 == from4) && (!o.ipv6 ==> to6 == from6)
    && if o.ipv4 && NftSetUp(from4, o.nft4, to4, false) then !ok && to6 == from6
       else (o.ipv4 ==> NftSetUp(from4, o.nft4, to4, true)) && (o.ipv6 ==> NftSetUp(from6, o.nft6, to6, ok)) && (!o.ipv6 ==> ok)
  }

  predicate AllNamesFit(o: Options) {
    (o.ipv4 ==> NamesFit(o.config4)) && (o.ipv6 ==> NamesFit(o.config6))
  }

  predicate AllNftNamesFit(o: Options) {
    (o.ipv4 ==> NftNamesFit(o.nft4)) && (o.ipv6 ==> NftNamesFit(o.nft6))
  }

  /** A setup cannot both succeed and fail. */
  lemma OneOutcome(from: Past<Table>, cfg: Config, to: Past<Table>)
    ensures !(SetUp(from, cfg, to, true) && SetUp(from, cfg, to, false))
    ensures SetUp(from, cfg, to, true) || SetUp(from, cfg, to, false) ==> IsSince(from, to)
  {
    hide Play, States, SetupOrders, NamesFit;
  }

  lemma OneNftOutcome(from: Past<Option<NftTable>>, cfg: NftConfig, to: Past<Option<NftTable>>)
    ensures !(NftSetUp(from, cfg, to, true) && NftSetUp(from, cfg, to, false))
    ensures NftSetUp(from, cfg, to, true) || NftSetUp(from, cfg, to, false) ==> IsSince(from, to)
  {
    hide Play, States, NftSetupOrders, NftNamesFit;
  }

  class Firewall {
    const options: Options
    var useIptables: bool
    ghost var probes: seq<bool>   // every trial whether nft works, and its outcome
    const tables4: Kernel
    const tables6: Kernel
    const nft4: NftKernel
    const nft6: NftKernel

    constructor (options: Options, useIptables: bool, tables4: Kernel, tables6: Kernel, nft4: NftKernel, nft6: NftKernel)
      requires tables4 != tables6 && nft4 != nft6
      ensures this.options == options && this.useIptables == useIptables && Apart()
      ensures this.tables4 == tables4 && this.tables6 == tables6 && this.nft4 == nft4 && this.nft6 == nft6 && probes == []
    {
      this.options, this.useIptables, probes := options, useIptables, [];
      this.tables4, this.tables6, this.nft4, this.nft6 := tables4, tables6, nft4, nft6;
    }

    predicate Apart() {
      tables4 != tables6 && nft4 != nft6
    }

    ghost predicate Intact(base4: Table, base6: Table)
      requires Pristine(base4) && Pristine(base6)
      reads tables4, tables6
    {
      Inv(base4, tables4.table) && Inv(base6, tables6.table)
    }

    /** nft_is_working */
    method NftIsWorking() returns (works: bool)
      modifies `probes
      ensures probes == old(probes) + [works]
    {
      works := *;
      probes := probes + [works];
    }

    /** The backend is the configured one, or iptables when nft was tried and does not work. */
    ghost predicate Chosen(configured: bool, before: seq<bool>)
      reads this
    {
      if options.skip || configured then probes == before && useIptables == configured
      else probes == before + [!useIptables]
    }

    /** The iptables half of the setup. */
    method SetupTables(ghost base4: Table, ghost base6: Table) returns (ok: bool)
      requires Apart() && Pristine(base4) && Pristine(base6) && Intact(base4, base6)
      modifies tables4, tables6
      ensures TablesSetUp(options, old(tables4.Here()), tables4.Here(), old(tables6.Here()), tables6.Here(), ok)
      ensures Intact(base4, base6) && IsSince(old(tables4.Here()), tables4.Here()) && IsSince(old(tables6.Here()), tables6.Here())
      ensures AllInv(base4, NewStates(old(tables4.Here()), tables4.Here()))
      ensures AllInv(base6, NewStates(old(tables6.Here()), tables6.Here()))
      ensures ok && options.ipv4 ==> exists ack :: tables4.table == Installed(base4, options.config4, ack)
      ensures ok && options.ipv6 ==> exists ack :: tables6.table == Installed(base6, options.config6, ack)
      ensures NoFaults(NewFates(old(tables4.Here()), tables4.Here())) && NoFaults(NewFates(old(tables6.Here()), tables6.Here())) ==>
                (ok <==> AllNamesFit(options))
      ensures (!options.ipv4 ==> unchanged(tables4)) && (!options.ipv6 ==> unchanged(tables6))
    {
      hide Inv, Installed, Ran, SetUp, NamesFit;
      if options.ipv4 {
        var set4 := Iptables.Setup(tables4, options.config4, base4);
        OneOutcome(old(tables4.Here()), options.config4, tables4.Here());
        if !set4 {
          return false;
        }
      }
      if options.ipv6 {
        var set6 := Iptables.Setup(tables6, options.config6, base6);
        OneOutcome(old(tables6.Here()), options.config6, tables6.Here());
        if !set6 {
          return false;
        }
      }
      ok := true;
    }

    /** The nft half. */
    method SetupNft() returns (ok: bool)
      requires Apart()
      modifies nft4, nft6
      ensures NftTablesSetUp(options, old(nft4.Here()), nft4.Here(), old(nft6.Here()), nft6.Here(), ok)
      ensures IsSince(old(nft4.Here()), nft4.Here()) && IsSince(old(nft6.Here()), nft6.Here())
      ensures ok && options.ipv4 ==> exists l, ack :: nft4.table == Some(AddedTo(l, NftInstalled(options.nft4, ack)))
      ensures ok && options.ipv6 ==> exists l, ack :: nft6.table == Some(AddedTo(l, NftInstalled(options.nft6, ack)))
      ensures NoFaults(NewFates(old(nft4.Here()), nft4.Here())) && NoFaults(NewFates(old(nft6.Here()), nft6.Here())) ==>
                && (ok <==> AllNftNamesFit(options))
                && (ok && options.ipv4 ==> nft4.table == Some(NftInstalled(options.nft4, true)))
                && (ok && options.ipv6 ==> nft6.table == Some(NftInstalled(options.nft6, true)))
      ensures (!options.ipv4 ==> unchanged(nft4)) && (!options.ipv6 ==> unchanged(nft6))
    {
      hide Ran, NftSetUp, NftInstalled, AddedTo, NftNamesFit;
      if options.ipv4 {
        ok := NftSetup(nft4, options.nft4);
        OneNftOutcome(old(nft4.Here()), options.nft4, nft4.Here());
        if !ok {
          return;
        }
      }
      if options.ipv6 {
        ok := NftSetup(nft6, options.nft6);
        OneNftOutcome(old(nft6.Here()), options.nft6, nft6.Here());
        if !ok {
          return;
        }
      }
      ok := true;
    }

    /** fh_nfrules_setup. With nothing to set up, or without faults and with names that fit, it succeeds. */
    method Setup(ghost base4: Table, ghost base6: Table) returns (ok: bool)
      requires Apart() && Pristine(base4) && Pristine(base6) && Intact(base4, base6)
      modifies `useIptables, `probes, tables4, tables6, nft4, nft6
      ensures Intact(base4, base6) && Chosen(old(useIptables), old(probes))
      ensures IsSince(old(tables4.Here()), tables4.Here()) && IsSince(old(tables6.Here()), tables6.Here())
      ensures IsSince(old(nft4.Here()), nft4.Here()) && IsSince(old(nft6.Here()), nft6.Here())
      ensures AllInv(base4, NewStates(old(tables4.Here()), tables4.Here()))
      ensures AllInv(base6, NewStates(old(tables6.Here()), tables6.Here()))
      ensures options.skip || !useIptables || !options.ipv4 ==> unchanged(tables4)
      ensures options.skip || !useIptables || !options.ipv6 ==> unchanged(tables6)
      ensures options.skip || useIptables || !options.ipv4 ==> unchanged(nft4)
      ensures options.skip || useIptables || !options.ipv6 ==> unchanged(nft6)
      ensures options.skip ==> ok
      ensures !options.skip && useIptables ==>
                && TablesSetUp(options, old(tables4.Here()), tables4.Here(), old(tables6.Here()), tables6.Here(), ok)
                && (ok && options.ipv4 ==> exists ack :: tables4.table == Installed(base4, options.config4, ack))
                && (ok && options.ipv6 ==> exists ack :: tables6.table == Installed(base6, options.config6, ack))
      ensures !options.skip && !useIptables ==>
                && NftTablesSetUp(options, old(nft4.Here()), nft4.Here(), old(nft6.Here()), nft6.Here(), ok)
                && (ok && options.ipv4 ==> exists l, ack :: nft4.table == Some(AddedTo(l, NftInstalled(options.nft4, ack))))
                && (ok && options.ipv6 ==> exists l, ack :: nft6.table == Some(AddedTo(l, NftInstalled(options.nft6, ack))))
      ensures NoFaults(NewFates(old(tables4.Here()), tables4.Here())) && NoFaults(NewFates(old(tables6.Here()), tables6.Here())) ==>
                !options.skip && useIptables ==> (ok <==> AllNamesFit(options))
      ensures NoFaults(NewFates(old(nft4.Here()), nft4.Here())) && NoFaults(NewFates(old(nft6.Here()), nft6.Here())) ==>
                !options.skip && !useIptables ==>
                  && (ok <==> AllNftNamesFit(options))
                  && (ok && options.ipv4 ==> nft4.table == Some(NftInstalled(options.nft4, true)))
                  && (ok && options.ipv6 ==> nft6.table == Some(NftInstalled(options.nft6, true)))
    {
      hide Inv, Installed, TablesSetUp, NftTablesSetUp, NftInstalled, AddedTo, AllNamesFit, AllNftNamesFit;
      if options.skip {
        return true;
      }
      if !useIptables {
        var works := NftIsWorking();
        if !works {
          useIptables := true;
        }
      }
      if useIptables {
        ok := SetupTables(base4, base6);
      } else {
        ok := SetupNft();
      }
    }

    /** fh_nfrules_cleanup */
    method Cleanup(ghost base4: Table, ghost base6: Table)
      requires Apart() && Pristine(base4) && Pristine(base6) && Intact(base4, base6)
      modifies tables4, tables6, nft4, nft6
      ensures Intact(base4, base6)
      ensures IsSince(old(tables4.Here()), tables4.Here()) && IsSince(old(tables6.Here()), tables6.Here())
      ensures IsSince(old(nft4.Here()), nft4.Here()) && IsSince(old(nft6.Here()), nft6.Here())
      ensures AllInv(base4, NewStates(old(tables4.Here()), tables4.Here()))
      ensures AllInv(base6, NewStates(old(tables6.Here()), tables6.Here()))
      ensures options.skip || !useIptables || !options.ipv4 ==> unchanged(tables4)
      ensures options.skip || !useIptables || !options.ipv6 ==> unchanged(tables6)
      ensures options.skip || useIptables || !options.ipv4 ==> unchanged(nft4)
      ensures options.skip || useIptables || !options.ipv6 ==> unchanged(nft6)
      ensures !options.skip && useIptables && options.ipv4 ==>
                && Went(Apply, old(tables4.Here()), CleanupOrders(), tables4.Here(), Finished)
                && (NoFaults(NewFates(old(tables4.Here()), tables4.Here())) ==> tables4.table == base4)
      ensures !options.skip && useIptables && options.ipv6 ==>
                && Went(Apply, old(tables6.Here()), CleanupOrders(), tables6.Here(), Finished)
                && (NoFaults(NewFates(old(tables6.Here()), tables6.Here())) ==> tables6.table == base6)
      ensures !options.skip && !useIptables && options.ipv4 ==>
                && Went(NftApply, old(nft4.Here()), NftCleanupOrders(), nft4.Here(), Finished)
                && (NoFaults(NewFates(old(nft4.Here()), nft4.Here())) ==> nft4.table == None)
      ensures !options.skip && !useIptables && options.ipv6 ==>
                && Went(NftApply, old(nft6.Here()), NftCleanupOrders(), nft6.Here(), Finished)
                && (NoFaults(NewFates(old(nft6.Here()), nft6.Here())) ==> nft6.table == None)
    {
      hide Inv, Ran, CleanupOrders;
      if options.skip {
        return;
      }
      if useIptables {
        if options.ipv4 {
          Iptables.Cleanup(tables4, base4);
        }
        if options.ipv6 {
          Iptables.Cleanup(tables6, base6);
        }
      } else {
        if options.ipv4 {
          NftCleanup(nft4);
        }
        if options.ipv6 {
          NftCleanup(nft6);
        }
      }
    }

    /** What main does with the rules: a failed setup, of either family, and a finished run both end in the cleanup of
        the backend that the setup ended up with. The ghost results are the kernels' pasts between the two: up to there
        goes the setup, which says ok or not, and all that comes after is one cleanup. */
    method RunOnce(ghost base4: Table, ghost base6: Table)
      returns (ok: bool, ghost mid4: Past<Table>, ghost mid6: Past<Table>,
               ghost nftMid4: Past<Option<NftTable>>, ghost nftMid6: Past<Option<NftTable>>)
      requires Apart() && Pristine(base4) && Pristine(base6) && Intact(base4, base6)
      modifies `useIptables, `probes, tables4, tables6, nft4, nft6
      ensures Intact(base4, base6) && Chosen(old(useIptables), old(probes))
      ensures IsSince(old(tables4.Here()), tables4.Here()) && IsSince(old(tables6.Here()), tables6.Here())
      ensures AllInv(base4, NewStates(old(tables4.Here()), tables4.Here()))
      ensures AllInv(base6, NewStates(old(tables6.Here()), tables6.Here()))
      ensures options.skip || !useIptables || !options.ipv4 ==> unchanged(tables4)
      ensures options.skip || !useIptables || !options.ipv6 ==> unchanged(tables6)
      ensures options.skip || useIptables || !options.ipv4 ==> unchanged(nft4)
      ensures options.skip || useIptables || !options.ipv6 ==> unchanged(nft6)
      ensures !options.skip && useIptables ==>
                TablesSetUp(options, old(tables4.Here()), mid4, old(tables6.Here()), mid6, ok)
      ensures !options.skip && useIptables && options.ipv4 ==>
                && Went(Apply, mid4, CleanupOrders(), tables4.Here(), Finished)
                && (NoFaults(NewFates(mid4, tables4.Here())) ==> tables4.table == base4)
      ensures !options.skip && useIptables && options.ipv6 ==>
                && Went(Apply, mid6, CleanupOrders(), tables6.Here(), Finished)
                && (NoFaults(NewFates(mid6, tables6.Here())) ==> tables6.table == base6)
      ensures !options.skip && !useIptables ==>
                NftTablesSetUp(options, old(nft4.Here()), nftMid4, old(nft6.Here()), nftMid6, ok)
      ensures !options.skip && !useIptables && options.ipv4 ==>
                && Went(NftApply, nftMid4, NftCleanupOrders(), nft4.Here(), Finished)
                && (NoFaults(NewFates(nftMid4, nft4.Here())) ==> nft4.table == None)
      ensures !options.skip && !useIptables && options.ipv6 ==>
                && Went(NftApply, nftMid6, NftCleanupOrders(), nft6.Here(), Finished)
                && (NoFaults(NewFates(nftMid6, nft6.Here())) ==> nft6.table == None)
    {
      hide Inv, Ran, CleanupOrders, TablesSetUp, NftTablesSetUp, Installed, NftInstalled, AddedTo;
      ok := Setup(base4, base6);
      mid4, mid6, nftMid4, nftMid6 := tables4.Here(), tables6.Here(), nft4.Here(), nft6.Here();
      Cleanup(base4, base6);
      KeptFurther(base4, old(tables4.Here()), mid4, tables4.Here());
      KeptFurther(base6, old(tables6.Here()), mid6, tables6.Here());
    }
  }

  lemma KeptFurther(base: Table, from: Past<Table>, mid: Past<Table>, to: Past<Table>)
    requires Pristine(base) && IsSince(from, mid) && IsSince(mid, to)
    requires AllInv(base, NewStates(from, mid)) && AllInv(base, NewStates(mid, to))
    ensures IsSince(from, to) && AllInv(base, NewStates(from, to))
  {
    hide Inv;
    assert NewStates(from, to) == NewStates(from, mid) + NewStates(mid, to);
  }

  // ---------- any history ----------

  /** A setup or a cleanup of one family whose commands meet these fates; when they end early, the process has died there. */
  datatype Run = Setting(config: Config, fates: seq<Fate>) | Cleaning(fates: seq<Fate>)

  function Orders(run: Run): (r: seq<Order<Command>>) {
    match run
    case Setting(cfg, _) => SetupOrders(cfg)
    case Cleaning(_) => CleanupOrders()
  }

  function AfterRun(t: Table, run: Run): (r: Table) {
    Play(Apply, t, Orders(run), run.fates).state
  }

  function AfterRuns(t: Table, runs: seq<Run>): (r: Table)
    decreases |runs|
  {
    if runs == [] then t else AfterRuns(AfterRun(t, runs[0]), runs[1..])
  }

  /** Any number of setups and cleanups with any options, however their commands fare and wherever they are cut short,
      leave everything intact. */
  lemma {:induction false} HistoryKeeps(base: Table, t: Table, runs: seq<Run>)
    requires Pristine(base) && Inv(base, t)
    ensures Inv(base, AfterRuns(t, runs))
    decreases |runs|
  {
    hide Inv, Play, SetupOrders, CleanupOrders;
    if runs != [] {
      match runs[0] {
        case Setting(cfg, fates) => SetupRun(base, cfg, t, fates);
        case Cleaning(fates) => CleanupRun(base, t, fates);
      }
      HistoryKeeps(base, AfterRun(t, runs[0]), runs[1..]);
    }
  }

  /** After any such history in the others' table, one cleanup without faults leaves that table as it was, and a setup
      without faults and with names that fit succeeds with exactly the intended rules. */
  lemma HistoryRecovers(base: Table, runs: seq<Run>, cfg: Config, fates: seq<Fate>)
    requires Pristine(base) && NoFaults(fates)
    ensures AttemptAll(AfterRuns(base, runs), CleanupCommands()) == base
    ensures |CleanupOrders()| <= |fates| ==> Play(Apply, AfterRuns(base, runs), CleanupOrders(), fates) == Played(base, Finished)
    ensures |SetupOrders(cfg)| <= |fates| && NamesFit(cfg) ==>
              Play(Apply, AfterRuns(base, runs), SetupOrders(cfg), fates) == Played(Installed(base, cfg, true), Finished)
  {
    PristineInv(base);
    hide Inv, Play, SetupOrders, CleanupOrders, NamesFit, Installed, CleanupCommands, AttemptAll;
    HistoryKeeps(base, base, runs);
    var t := AfterRuns(base, runs);
    CleanupRestores(base, t);
    CleanupRun(base, t, fates);
    SetupRun(base, cfg, t, fates);
    if |SetupOrders(cfg)| <= |fates| {
      EnoughFates(Apply, t, SetupOrders(cfg), fates);
    }
  }

  /** The runs of a history are those of the programs: what a setup or a cleanup leaves, and what it leaves when its
      process dies after any of its commands, is the table after a run with the fates they met up to there. */
  lemma ProgramsAreRuns(from: Past<Table>, run: Run, to: Past<Table>, end: End, k: nat)
    requires Went(Apply, from, Orders(run), to, end) && run.fates == NewFates(from, to)
    ensures to.state == AfterRun(from.state, run)
    ensures k < |NewStates(from, to)| ==>
              && k < |run.fates|
              && NewStates(from, to)[k] == AfterRun(from.state, run.(fates := run.fates[..k + 1]))
  {
    hide Play, States, SetupOrders, CleanupOrders;
    CameToTheEnd(Apply, from, Orders(run), to, end);
    if k < |NewStates(from, to)| {
      DiedOnTheWay(Apply, from, Orders(run), to, end, k);
    }
  }
}
