/** The repository functions as they run: statement by statement on the tables of one account,
    inside one guarded transaction. Each leaves the tables in the state `MailStore` names, and
    says what its callers may rely on afterwards. */
module MailRepository {
  import opened Basics
  import opened Messages
  import opened MailStore
  import opened MailEffects

  class Repository {
    var clock: nat
    var sync: Sync
    var recon: Recon
    var marks: Marks
    var seen: set<(string, string)>
    var windows: map<string, Window>
    var messages: map<string, Row>

    ghost function Tables(): Store
      reads this
    {
      Store(clock, sync, recon, marks, seen, windows, messages)
    }

    constructor ()
      ensures Tables() == FRESH
    {
      clock, sync, recon, marks := 0, FRESH.sync, FRESH.recon, FRESH.marks;
      seen, windows, messages := {}, map[], map[];
    }

    method BeginTransaction(elapsed: nat)
      modifies this`clock
      ensures Tables() == Later(old(Tables()), elapsed)
    {
      clock := clock + elapsed;
    }

    // -------------------------------------------------------------------------------
    // Messages

    method UpsertOnConnection(rows: seq<(string, Row)>)
      modifies this`messages, this`sync
      ensures Tables() == UpsertOn(old(Tables()), rows)
    {
      var i := 0;
      while i < |rows|
        invariant 0 <= i <= |rows|
        invariant messages == UpsertRows(old(messages), rows[..i], clock)
        invariant sync == old(sync)
      {
        var (id, row) := rows[i];
        var ex := Params(row);
        if id in messages {
          messages := messages[id := Merge(messages[id], ex, clock)];
        } else {
          messages := messages[id := ex.(updatedAt := clock)];
        }
        assert rows[..i + 1][..i] == rows[..i];
        i := i + 1;
      }
      assert rows[..|rows|] == rows;
      if rows != [] && sync.generation.Some? && sync.metadataComplete
        && exists id :: id in messages && !Terminal(messages[id].status) {
        sync := sync.(bodyComplete := false);
        if sync.phase == Some(Complete) {
          sync := sync.(phase := Some(SyncingRecent));
        }
      }
    }

    method UpsertMessages(rows: seq<(string, Row)>) returns (count: nat)
      modifies this`messages, this`sync
      ensures Tables() == Upsert(old(Tables()), rows) && count == |rows|
      ensures messages.Keys == old(messages).Keys + Listed(rows)
      ensures forall id :: id in old(messages) ==>
        Succeeds(old(messages)[id], messages[id]) && (id !in Listed(rows) ==> messages[id] == old(messages)[id])
      ensures ProgressKept(old(Tables()), Tables())
      ensures if rows == [] then Tables() == old(Tables()) else Reopened(old(sync), sync, messages)
    {
      UpsertedRows(messages, rows, clock);
      KeepsProgress(Tables(), Mail(DoUpsert(rows)));
      if rows == [] {
        return 0;
      }
      UpsertOnConnection(rows);
      count := |rows|;
    }

    method ForceUpdateLabels(labels: map<string, string>)
      modifies this`messages
      ensures Tables() == ForceLabels(old(Tables()), labels)
      ensures LabelledOnly(old(messages), messages, labels, clock)
    {
      ForcedLabels(Tables(), labels);
      var named := labels.Keys - {""};
      var rest := named;
      assert Relabelled(messages, labels, {}, clock) == messages;
      while rest != {}
        invariant rest <= named && messages == Relabelled(old(messages), labels, named - rest, clock)
        decreases rest
      {
        var id :| id in rest;
        RelabelOne(old(messages), labels, named - rest, id, clock);
        assert named - (rest - {id}) == named - rest + {id};
        rest := rest - {id};
        if id in messages {
          messages := messages[id := WithLabels(messages[id], labels[id], clock)];
        }
      }
      assert named - {} == named;
    }

    method RefreshBodyProgress()
      modifies this`sync
      ensures Tables() == BodyProgress(old(Tables()))
      ensures Refreshed(old(Tables()), Tables())
      ensures BodyProgress(Tables()) == Tables()
    {
      RefreshSettles(Tables());
      RefreshRefreshes(Tables());
      if sync.generation.None? {
        return;
      }
      var w := if sync.generation.value in windows then windows[sync.generation.value] else map[];
      var ready := |BodiesReady(w, sync.bodyTarget)|;
      var readyThreads := |ReadyThreads(messages)|;
      var done := sync.metadataComplete && AllTerminal(messages);
      if done {
        sync := sync.(phase := Some(Complete));
      } else if sync.windowComplete && ready >= sync.bodyTarget
        && sync.phase in {Some(DiscoveringRecent), Some(ImportingMetadata), Some(HydratingPriorityContent)} {
        sync := sync.(phase := Some(Usable));
      }
      sync := sync.(
        bodyReady := Max(sync.bodyReady, ready),
        historyBody := Max(sync.historyBody, Min(sync.historyMetadata, readyThreads)),
        bodyComplete := sync.bodyComplete || done);
    }

    method SettleEntries(threads: set<string>)
      modifies this`windows
      ensures Tables() == SettleBodies(old(Tables()), threads)
    {
      if sync.generation.Some? {
        var g := sync.generation.value;
        var w := if g in windows then windows[g] else map[];
        windows := windows[g := map t | t in w ::
          if t in threads && ThreadReady(messages, t) then w[t].(bodyReady := true) else w[t]];
      }
    }

    method UpdateMessageBodies(rows: seq<(string, Row)>) returns (ok: bool)
      modifies this`messages, this`windows, this`sync
      ensures Tables() == UpdateBodies(old(Tables()), rows) && ok == AllFetched(rows)
      ensures if ok then BodiesTaken(old(messages), messages, rows) else Tables() == old(Tables())
      ensures ok ==> SettledBy(ActiveWindow(old(Tables())), ActiveWindow(Tables()), messages, ThreadsOf(rows))
    {
      if AllFetched(rows) { UpdateSettles(Tables(), rows); }
      BodyRowsTaken(messages, rows);
      ok := forall i :: 0 <= i < |rows| ==> rows[i].1.status.Fetched?;
      if rows == [] || !ok {
        return;
      }
      var i := 0;
      while i < |rows|
        invariant 0 <= i <= |rows|
        invariant messages == BodyRows(old(messages), rows[..i])
        invariant sync == old(sync) && windows == old(windows)
      {
        var (id, row) := rows[i];
        if id in messages && !messages[id].status.Fetched? {
          messages := messages[id := WithBody(messages[id], Params(row))];
        } else if id in messages {
          assert messages[id := WithBody(messages[id], Params(row))] == messages;
        }
        assert rows[..i + 1][..i] == rows[..i];
        i := i + 1;
      }
      assert rows[..|rows|] == rows;
      ghost var hydrated := Tables();
      assert hydrated == old(Tables()).(messages := BodyRows(old(messages), rows));
      var threads := RecordThreads(rows);
      if threads != {} {
        SettleEntries(threads);
        assert Tables() == SettleBodies(hydrated, threads);
      }
      RefreshBodyProgress();
    }

    method MarkRows(named: set<string>, status: BodyStatus) returns (updated: nat)
      modifies this`messages
      ensures messages == MarkedRows(old(messages), named, status) && updated == |Markable(old(messages), named, status)|
    {
      var hit := Markable(messages, named, status);
      updated := |hit|;
      messages := map id | id in messages :: if id in hit then WithStatus(messages[id], status) else messages[id];
    }

    method SettleNamed(named: set<string>)
      modifies this`windows, this`sync
      ensures Tables() == BodyProgress(SettleBodies(old(Tables()), set id | id in messages && id in named :: Key(id, messages[id])))
    {
      SettleEntries(set id | id in messages && id in named :: Key(id, messages[id]));
      RefreshBodyProgress();
    }

    method MarkBodyFetchState(ids: set<string>, status: BodyStatus) returns (updated: nat)
      modifies this`messages, this`windows, this`sync
      ensures Tables() == MarkBodies(old(Tables()), ids, status)
      ensures updated == |Markable(old(messages), ids - {""}, status)|
      ensures MarkedOnly(old(messages), messages, ids, status)
      ensures if Terminal(status) && updated > 0
        then SettledBy(ActiveWindow(old(Tables())), ActiveWindow(Tables()), messages, ThreadsNamed(messages, ids))
        else sync == old(sync) && windows == old(windows)
    {
      MarkSettles(Tables(), ids, status);
      MarksOnly(messages, ids, status);
      var named := ids - {""};
      updated := MarkRows(named, status);
      if named == {} {
        assert messages == old(messages);
        return;
      }
      if updated > 0 && (status.Fetched? || status.Unavailable?) {
        SettleNamed(named);
      }
    }

    /** Settles the entries of threads that became empty or complete, and says whether any did. */
    method VacateEntries(g: string, w: Window, gone: set<string>) returns (settled: bool)
      modifies this`windows
      ensures settled <==> exists t :: t in gone && t in w && ThreadReady(messages, t)
      ensures windows == if settled then old(windows)[g := Vacated(messages, w, gone)] else old(windows)
    {
      var emptied := set t | t in gone && t in w && MessagesOf(messages, t) == {};
      var resolved := set t | t in gone && t in w && MessagesOf(messages, t) != {} && ThreadReady(messages, t);
      forall t | t in gone && t in w ensures ThreadReady(messages, t) <==> t in emptied || t in resolved {
        assert forall id :: id in messages && Key(id, messages[id]) == t ==> id in MessagesOf(messages, t);
      }
      settled := emptied != {} || resolved != {};
      if settled {
        windows := windows[g := map t | t in w ::
          if t in emptied then w[t].(metadataReady := true, bodyReady := true, messages := 0)
          else if t in resolved then w[t].(bodyReady := true)
          else w[t]];
        assert windows[g] == Vacated(messages, w, gone);
      }
    }

    method DeleteMessages(ids: set<string>)
      modifies this`messages, this`windows, this`sync
      ensures Tables() == Delete(old(Tables()), ids)
      ensures DeletedOnly(old(messages), messages, ids)
      ensures VacatedBy(ActiveWindow(old(Tables())), ActiveWindow(Tables()), messages, ThreadsNamed(old(messages), ids))
    {
      DeleteVacates(Tables(), ids);
      var named := ids - {""};
      var gone := set id | id in messages && id in named :: Key(id, messages[id]);
      messages := map id | id in messages && id !in named :: messages[id];
      if sync.generation.None? {
        return;
      }
      var g := sync.generation.value;
      var w := if g in windows then windows[g] else map[];
      var settled := VacateEntries(sync.generation.value, w, gone);
      if settled {
        CountWindow();
        RefreshBodyProgress();
      }
    }

    // -------------------------------------------------------------------------------
    // Import lifecycle

    method MarkImportStarted()
      modifies this`sync
      ensures Tables() == ImportStarted(old(Tables()))
      ensures sync.generation.Some? && sync.metadataComplete ==>
        forall g, threads, estimate :: InitWindow(Tables(), g, threads, estimate) == Tables()
      ensures sync == old(sync).(phase := if sync.generation.Some? && sync.metadataComplete then Some(SyncingRecent) else old(sync.phase))
      ensures ProgressKept(old(Tables()), Tables())
    {
      KeepsProgress(Tables(), Life(DoImportStarted));
      if sync.generation.Some? && sync.metadataComplete {
        sync := sync.(phase := Some(SyncingRecent));
      }
    }

    method MarkImportError()
      modifies this`sync
      ensures Tables() == ImportFailed(old(Tables()))
      ensures sync == old(sync).(phase := if sync.generation.Some? then Some(FailedPhase) else old(sync.phase))
      ensures forall g :: sync.generation == Some(g) ==> (AlreadyDiscovered(Tables(), g) <==> WindowOf(Tables(), g) != map[])
      ensures ProgressKept(old(Tables()), Tables())
    {
      KeepsProgress(Tables(), Life(DoImportFailed));
      if sync.generation.Some? {
        sync := sync.(phase := Some(FailedPhase));
      }
    }

    method MarkHistoryDeltaCompleted(history: string) returns (ok: bool)
      modifies this`marks, this`sync
      ensures Tables() == HistoryDelta(old(Tables()), history) && ok == IsDigits(history)
      ensures if ok then MovedTo(old(marks), marks, history) else marks == old(marks) && sync == old(sync)
      ensures ok ==> sync == old(sync).(phase :=
        if sync.generation.None? then old(sync.phase) else if sync.bodyComplete then Some(Complete) else Some(Usable))
    {
      HistoryMoves(Tables(), history);
      ok := IsDigits(history);
      if !ok {
        return;
      }
      if !marks.authoritative || !Numeric(marks.lastHistory) || Value(history) >= Value(marks.lastHistory.value) {
        marks := marks.(lastHistory := Some(history));
      }
      marks := marks.(authoritative := true);
      if sync.generation.Some? {
        sync := sync.(phase := if sync.bodyComplete then Some(Complete) else Some(Usable));
      }
    }

    // -------------------------------------------------------------------------------
    // Initial window

    method StartProgress(g: string) returns (bound: bool)
      modifies this`sync, this`windows
      ensures Tables() == StartSync(old(Tables()), g) && bound == (g != "" && recon.generation == Some(g))
      ensures bound ==> sync.generation == recon.generation && windows.Keys <= {g} && StartSync(Tables(), g) == Tables()
      ensures bound && old(sync.generation) != Some(g) ==> sync.target == sync.historyMetadata == 0 && !sync.metadataComplete && !sync.windowComplete
      ensures bound && old(sync.generation) == Some(g) ==>
        sync == old(sync).(phase := if old(sync.phase).Some? then old(sync.phase) else Some(DiscoveringRecent))
      ensures bound ==> forall k :: k in old(windows) && k == g ==> k in windows && windows[k] == old(windows)[k]
      ensures !bound ==> Tables() == old(Tables())
    {
      StartsOnce(Tables(), g);
      bound := g != "" && recon.generation == Some(g);
      if !bound {
        return;
      }
      if sync.generation != Some(g) {
        sync := FRESH.sync.(generation := Some(g), phase := Some(DiscoveringRecent));
      } else if sync.phase.None? {
        sync := sync.(phase := Some(DiscoveringRecent));
      }
      windows := map k | k in windows && k == g :: windows[k];
    }

    method PlaceThreads(u: seq<string>) returns (w: Window)
      ensures w == Enumerated(u)
    {
      w := map[];
      var i := 0;
      while i < |u|
        invariant 0 <= i <= |u| && w == Enumerated(u[..i])
      {
        if u[i] !in w {
          w := w[u[i] := Entry(i, false, false, 0)];
        }
        assert u[..i + 1][..i] == u[..i];
        i := i + 1;
      }
      assert u[..|u|] == u;
    }

    method InitializeWindow(g: string, threads: seq<string>, estimate: int) returns (active: bool)
      modifies this`sync, this`windows, this`marks
      ensures Tables() == InitWindow(old(Tables()), g, threads, estimate) && active == (sync.generation == Some(g))
      ensures if active && WindowOf(old(Tables()), g) == map[] && old(sync.phase) in {None, Some(DiscoveringRecent), Some(FailedPhase)}
        then Discovered(old(Tables()), Tables(), g, threads, estimate)
        else Tables() == old(Tables())
    {
      if sync.generation == Some(g) && !AlreadyDiscovered(Store(clock, sync, recon, marks, seen, windows, messages), g) {
        DiscoveryPublishes(Tables(), g, threads, estimate);
      }
      active := sync.generation == Some(g);
      if !active || AlreadyDiscovered(Store(clock, sync, recon, marks, seen, windows, messages), g) {
        return;
      }
      var u := FirstHundred(threads);
      var w := PlaceThreads(u);
      windows := windows[g := w];
      marks := marks.(firstBatch := marks.firstBatch || u == []);
      sync := sync.(
        target := |u|,
        bodyTarget := Min(25, |u|),
        estimated := Max(sync.estimated, Max(0, estimate)),
        windowComplete := u == [],
        phase := if u == [] then Some(SyncingHistory) else Some(ImportingMetadata));
    }

    method CountWindow()
      requires sync.generation.Some?
      modifies this`sync
      ensures Tables() == Counted(old(Tables()))
    {
      var w := if sync.generation.value in windows then windows[sync.generation.value] else map[];
      var metadata, bodies, target := |MetadataReady(w)|, |BodiesReady(w, 25)|, |w|;
      sync := sync.(
        target := Max(sync.target, target),
        metadata := Max(sync.metadata, metadata),
        bodyTarget := Max(sync.bodyTarget, Min(25, target)),
        bodyReady := Max(sync.bodyReady, bodies),
        windowComplete := sync.windowComplete || metadata >= target);
    }

    method SettleBatch(g: string, threads: seq<string>)
      requires sync.generation == Some(g)
      modifies this`sync, this`windows, this`marks
      ensures Tables() == MailStore.SettleBatch(old(Tables()), g, threads)
    {
      var w := Hydrated(messages, if g in windows then windows[g] else map[], threads);
      windows := windows[g := w];
      ghost var hydrated := Tables();
      CountWindow();
      assert Tables() == Counted(hydrated);
      var metadata, bodies, target := |MetadataReady(w)|, |BodiesReady(w, 25)|, |w|;
      sync := sync.(phase :=
        if metadata >= target && bodies >= Min(25, target) then Some(Usable)
        else if metadata >= target then Some(HydratingPriorityContent)
        else Some(ImportingMetadata));
      if metadata > 0 || target == 0 {
        marks := marks.(firstBatch := true);
      }
    }

    method CommitWindowBatch(g: string, threads: seq<string>, rows: seq<(string, Row)>, missing: seq<string>) returns (committed: bool)
      modifies this`sync, this`windows, this`marks, this`messages
      ensures Tables() == CommitWindow(old(Tables()), g, threads, rows, missing)
      ensures committed == (old(sync).generation == Some(g) && !BatchRejected(threads, missing))
      ensures committed <==> old(sync).generation == Some(g) && FitsBatch(threads, missing)
      ensures committed ==> Readied(WindowOf(old(Tables()), g), WindowOf(Tables(), g), threads, missing)
      ensures committed ==> messages == UpsertRows(old(messages), rows, clock) && Imports(old(Tables()), Tables())
      ensures committed ==> Measured(WindowOf(old(Tables()), g), WindowOf(Tables(), g), messages, threads, missing)
      ensures committed ==> (sync.phase in {Some(Usable), Some(HydratingPriorityContent)} <==> AllReady(WindowOf(Tables(), g)))
      ensures !committed ==> Tables() == old(Tables())
    {
      if sync.generation == Some(g) && !BatchRejected(threads, missing) {
        BatchReadies(Tables(), g, threads, rows, missing);
        BatchImports(Tables(), g, threads, rows, missing);
      }
      FitsUnlessRejected(threads, missing);
      committed := sync.generation == Some(g) && !BatchRejected(threads, missing);
      if !committed {
        return;
      }
      windows := windows[g := TerminallyMissing(if g in windows then windows[g] else map[], missing)];
      UpsertOnConnection(rows);
      ReadyPhase(Tables(), g, threads);
      SettleBatch(g, threads);
    }

    // -------------------------------------------------------------------------------
    // Reconciliation

    method StartReconciliation(g: string, baseline: string, cursor: string) returns (ok: bool)
      modifies this`recon, this`marks, this`seen
      ensures Tables() == StartRecon(old(Tables()), g, baseline, cursor)
      ensures old(recon).generation.Some? || !ok ==> recon == old(recon) && marks == old(marks)
      ensures ok && old(recon).generation.None? ==>
        recon == Recon(Some(g), Some(cursor), Some(baseline), Some(clock)) && Expects(Tables(), g, Some(cursor)) && !marks.authoritative
      ensures ok <==> g != "" && cursor != "" && IsDigits(baseline)
      ensures ok ==> recon.generation.Some? && seen == set x | x in old(seen) && Some(x.0) == recon.generation
      ensures ok ==> forall h, b, c :: StartRecon(Tables(), h, b, c) == Tables()
    {
      ok := g != "" && cursor != "" && IsDigits(baseline);
      if !ok {
        return;
      }
      if recon.generation.None? {
        recon := Recon(Some(g), Some(cursor), Some(baseline), Some(clock));
        marks := marks.(authoritative := false);
      }
      seen := set x | x in seen && x.0 == recon.generation.value;
    }

    method RecordReconciliationPage(g: string, expected: string, next: Option<string>, ids: seq<string>) returns (advanced: bool)
      modifies this`recon, this`seen
      ensures Tables() == RecordPage(old(Tables()), g, expected, next, ids)
      ensures advanced <==> old(recon).generation == Some(g) && old(recon).cursor == Some(expected)
      ensures old(seen) <= seen && forall x :: x in seen && x.0 != g ==> x in old(seen)
      ensures advanced ==> Expects(Tables(), g, next) && Spared(Tables(), g, (set id | id in ids && id != ""))
      ensures recon.(cursor := None) == old(recon).(cursor := None) && (!advanced ==> Tables() == old(Tables()))
    {
      advanced := recon.generation == Some(g) && recon.cursor == Some(expected);
      if !advanced {
        return;
      }
      recon := recon.(cursor := next);
      seen := seen + set id | id in ids && id != "" :: (g, id);
      RecordedAreSpared(Tables(), g, set id | id in ids && id != "");
    }

    method AdvanceScan(next: Option<string>, estimate: int)
      modifies this`recon, this`sync
      ensures recon == old(recon).(cursor := next)
      ensures sync == old(sync).(
        phase :=
          if old(sync).phase in {Some(Complete), Some(FailedPhase)} then old(sync).phase
          else if old(sync).windowComplete && old(sync).bodyReady >= Min(25, old(sync).bodyTarget) then Some(SyncingHistory)
          else old(sync).phase,
        estimated := Max(old(sync).estimated, Max(0, estimate)))
    {
      recon := recon.(cursor := next);
      if sync.phase !in {Some(Complete), Some(FailedPhase)} && sync.windowComplete && sync.bodyReady >= Min(25, sync.bodyTarget) {
        sync := sync.(phase := Some(SyncingHistory));
      }
      sync := sync.(estimated := Max(sync.estimated, Max(0, estimate)));
    }

    /** Stores the rows of a page and counts the threads the scan has seen. */
    method StorePage(g: string, rows: seq<(string, Row)>, count: int)
      modifies this`seen, this`sync, this`messages
      ensures var s := Record(UpsertOn(old(Tables()), rows), g, Ids(rows));
        Tables() == s.(sync := s.sync.(historyMetadata := Max(s.sync.historyMetadata, Max(|SeenThreads(s, g)|, Max(0, count)))))
    {
      UpsertOnConnection(rows);
      seen := seen + set id | id in Ids(rows) && id != "" :: (g, id);
      var threads := |set id | id in messages && (g, id) in seen :: Key(id, messages[id])|;
      sync := sync.(historyMetadata := Max(sync.historyMetadata, Max(threads, Max(0, count))));
    }

    method CommitReconciliationPage(g: string, expected: string, next: Option<string>, rows: seq<(string, Row)>, count: int, estimate: int)
      returns (advanced: bool)
      modifies this`recon, this`seen, this`sync, this`messages
      ensures Tables() == CommitPage(old(Tables()), g, expected, next, rows, count, estimate)
      ensures advanced <==>
        count <= 100 && old(recon).generation == Some(g) && old(recon).cursor == Some(expected) && old(sync).generation == Some(g)
      ensures if advanced then PageCommitted(old(Tables()), Tables(), g, next, rows, count, estimate) else Tables() == old(Tables())
    {
      if count <= 100 && NextPage(Tables(), g, expected) && sync.generation == Some(g) {
        PageCommits(Tables(), g, expected, next, rows, count, estimate);
      }
      advanced := count <= 100 && recon.generation == Some(g) && recon.cursor == Some(expected) && sync.generation == Some(g);
      if !advanced {
        return;
      }
      AdvanceScan(next, estimate);
      StorePage(g, rows, count);
    }

    method RecordReconciliationSeen(g: string, ids: seq<string>) returns (active: bool)
      modifies this`seen
      ensures Tables() == RecordSeen(old(Tables()), g, ids)
      ensures active <==> recon.generation == Some(g) && forall e :: !NextPage(Tables(), g, e)
      ensures active ==> old(seen) <= seen && Spared(Tables(), g, (set id | id in ids && id != ""))
      ensures !active ==> Tables() == old(Tables())
    {
      active := recon.generation == Some(g) && recon.cursor == None;
      if active {
        seen := seen + set id | id in ids && id != "" :: (g, id);
        RecordedAreSpared(Tables(), g, set id | id in ids && id != "");
      }
      assert recon.cursor.Some? ==> recon.generation != Some(g) || NextPage(Tables(), g, recon.cursor.value);
    }

    /** Deletes the rows the scan did not see, unless they are newer than it. */
    method SweepAbsent(g: string, final: string) returns (count: nat)
      requires IsDigits(final) && recon.startedAt.Some?
      modifies this`messages
      ensures messages == map id | id in old(messages) && !Swept(old(Tables()), g, final, id) :: old(messages)[id]
      ensures count == |set id | id in old(messages) && id !in messages|
    {
      var started := recon.startedAt.value;
      var absent := set id | id in messages && (g, id) !in seen
        && (if Numeric(messages[id].history) then Value(messages[id].history.value) <= Value(final) else messages[id].updatedAt <= started);
      messages := map id | id in messages && id !in absent :: messages[id];
      assert absent == set id | id in old(messages) && id !in messages;
      count := |absent|;
    }

    /** Returns the number of rows the sweep deleted. */
    method FinalizeReconciliation(g: string, final: string) returns (deleted: Option<nat>)
      modifies this`recon, this`seen, this`sync, this`messages, this`marks
      ensures Tables() == Finalize(old(Tables()), g, final)
      ensures deleted.Some? <==>
        IsDigits(final) && old(recon).generation == Some(g) && old(recon).cursor == None && old(recon).startedAt.Some?
      ensures deleted.Some? ==> deleted.value == |set id | id in old(messages) && id !in messages|
      ensures deleted.Some? ==> MovedTo(old(marks), marks, final) && marks.backfilled && recon == FRESH.recon
      ensures deleted.Some? ==> seen == (set x | x in old(seen) && x.0 != g) && sync.estimated == Max(old(sync.estimated), |Threads(messages)|)
      ensures deleted.Some? ==> sync.metadataComplete && (sync.bodyComplete <==> AllTerminal(messages))
      ensures deleted.Some? ==> sync.historyMetadata >= |Threads(messages)| && sync.historyBody >= |ReadyThreads(messages)|
      ensures deleted.Some? ==> sync.historyMetadata in {old(sync.historyMetadata), |Threads(messages)|}
      ensures deleted.Some? ==> sync.historyBody in {old(sync.historyBody), |ReadyThreads(messages)|}
      ensures deleted.Some? && AllTerminal(messages) ==> sync.phase == Some(Complete)
      ensures deleted.Some? && !AllTerminal(messages) ==>
        sync.phase == if sync.windowComplete && sync.bodyReady >= Min(25, sync.bodyTarget) then Some(SyncingHistory) else old(sync.phase)
      ensures deleted.None? ==> Tables() == old(Tables())
    {
      FinalizeMoves(Tables(), g, final);
      if !IsDigits(final) || recon.generation != Some(g) || recon.cursor.Some? || recon.startedAt.None? {
        return None;
      }
      var count := SweepAbsent(g, final);
      marks := marks.(lastHistory := NextHistory(marks, final), authoritative := true, backfilled := true);
      recon := Recon(None, None, None, None);
      var threads, done := |Threads(messages)|, AllTerminal(messages);
      sync := sync.(
        historyMetadata := Max(sync.historyMetadata, threads),
        historyBody := Max(sync.historyBody, |ReadyThreads(messages)|),
        estimated := Max(sync.estimated, threads),
        metadataComplete := true,
        bodyComplete := done,
        phase :=
          if done then Some(Complete)
          else if sync.windowComplete && sync.bodyReady >= Min(25, sync.bodyTarget) then Some(SyncingHistory)
          else sync.phase);
      seen := set x | x in seen && x.0 != g;
      deleted := Some(count);
    }

    method ResetReconciliation(g: string) returns (reset: bool)
      modifies this`recon, this`seen, this`marks
      ensures Tables() == Reset(old(Tables()), g) && reset == (old(recon).generation == Some(g))
      ensures forall final :: !MayFinalize(Tables(), g, final)
      ensures Expects(Tables(), g, None) && seen == set x | x in old(seen) && x.0 != g
      ensures if reset then recon.generation.None? && !marks.authoritative else recon == old(recon) && marks == old(marks)
    {
      reset := recon.generation == Some(g);
      if reset {
        recon := Recon(None, None, None, None);
        marks := marks.(authoritative := false);
      }
      seen := set x | x in seen && x.0 != g;
    }

    // -------------------------------------------------------------------------------
    // Descriptor backfill

    method DescribeRows(page: seq<string>, descriptors: map<string, string>)
      requires forall i :: 0 <= i < |page| ==> page[i] in messages
      modifies this`messages
      ensures messages == Described(old(messages), page, descriptors, clock)
    {
      var i := 0;
      while i < |page|
        invariant 0 <= i <= |page|
        invariant messages == Described(old(messages), page[..i], descriptors, clock)
      {
        var id := page[i];
        assert page[..i + 1] == page[..i] + [id] && id in old(messages);
        messages := messages[id := WithDescriptors(messages[id], if id in descriptors then descriptors[id] else "[]", clock)];
        i := i + 1;
      }
      assert page[..|page|] == page;
    }

    /** Returns the number of rows processed, whether rows remain, and the next cursor. */
    method BackfillDescriptorsPage(after: Option<string>, page: seq<string>, descriptors: map<string, string>)
      returns (processed: nat, remaining: bool, cursor: Option<string>)
      requires exists limit: nat :: 1 <= limit <= 25 && FirstOf(Beyond(Unready(messages), after), limit, page)
      modifies this`messages, this`marks
      ensures Tables() == DescribePage(old(Tables()), after, page, descriptors)
      ensures processed == |page| && (remaining <==> SomeUnready(messages))
      ensures cursor == NextCursor(old(Tables()), after, page, descriptors)
      ensures DescribedOnly(old(messages), messages, page, descriptors, clock)
    {
      PageDescribes(Tables(), after, page, descriptors);
      DescribeRows(page, descriptors);
      processed := |page|;
      cursor := if page == [] then after else Some(page[|page| - 1]);
      var left := Unready(messages);
      if Beyond(left, cursor) == {} {
        marks := marks.(descriptorsComplete := left == {});
        if left != {} {
          cursor := None;
        }
      }
      remaining := left != {};
      assert forall id :: id in left <==> id in messages && !messages[id].descriptorsReady;
    }
  }
}
