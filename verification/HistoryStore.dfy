/** The store: one history table per plugin, changed by snapshot writes and maintenance
    passes. The ghost field records each table's run, so that whatever holds of every run
    holds of every state of the store. */
module HistoryStore {
  import opened Basics
  import opened Text
  import opened Congruence
  import opened Averages
  import opened PluginHistory
  import opened History
  import opened HistoryRuns

  /** The runs after a collector snapshot has written the payloads of some plugins. */
  function Recorded(runs: map<Plugin, seq<Event<Payload>>>, done: seq<Plugin>, at: int, payloads: map<Plugin, Payload>,
                    enabled: set<Plugin>): map<Plugin, seq<Event<Payload>>>
  {
    map p | p in runs ::
      if p in done && p in payloads && p != PluginSmart && p in enabled
      then runs[p] + [Snapshot(at, payloads[p])] else runs[p]
  }

  function Replaced(current: map<Plugin, (int, Payload)>, done: seq<Plugin>, at: int, payloads: map<Plugin, Payload>)
    : map<Plugin, (int, Payload)>
  {
    current + map p | p in payloads && p in done && p != PluginSmart :: (at, payloads[p])
  }

  lemma NothingRecorded(runs: map<Plugin, seq<Event<Payload>>>, current: map<Plugin, (int, Payload)>, at: int,
                        payloads: map<Plugin, Payload>, enabled: set<Plugin>)
    ensures Recorded(runs, [], at, payloads, enabled) == runs
    ensures Replaced(current, [], at, payloads) == current
  {
  }

  lemma RecordNext(runs: map<Plugin, seq<Event<Payload>>>, done: seq<Plugin>, p: Plugin, at: int,
                   payloads: map<Plugin, Payload>, enabled: set<Plugin>)
    requires p in runs && p !in done
    ensures
      var r := Recorded(runs, done, at, payloads, enabled);
      Recorded(runs, done + [p], at, payloads, enabled)
      == if p in payloads && p != PluginSmart && p in enabled then r[p := r[p] + [Snapshot(at, payloads[p])]] else r
  {
    assert forall q :: q in done + [p] <==> q in done || q == p;
  }

  lemma ReplaceNext(current: map<Plugin, (int, Payload)>, done: seq<Plugin>, p: Plugin, at: int,
                    payloads: map<Plugin, Payload>)
    requires p !in done
    ensures
      var r := Replaced(current, done, at, payloads);
      Replaced(current, done + [p], at, payloads)
      == if p in payloads && p != PluginSmart then r[p := (at, payloads[p])] else r
  {
    forall q
      ensures q in done + [p] <==> q in done || q == p
    {
    }
  }

  lemma RecordedForAll(runs: map<Plugin, seq<Event<Payload>>>, done: seq<Plugin>, at: int,
                       payloads: map<Plugin, Payload>, enabled: set<Plugin>)
    requires forall p: Plugin :: p in done && p in runs
    ensures forall p: Plugin :: p in Recorded(runs, done, at, payloads, enabled) &&
              Recorded(runs, done, at, payloads, enabled)[p] ==
              if p in payloads && p != PluginSmart && p in enabled
              then runs[p] + [Snapshot(at, payloads[p])] else runs[p]
  {
  }

  lemma ReplacedForAll(current: map<Plugin, (int, Payload)>, done: seq<Plugin>, at: int, payloads: map<Plugin, Payload>)
    requires forall p: Plugin :: p in done
    ensures forall p: Plugin :: Lookup(Replaced(current, done, at, payloads), p) ==
              if p in payloads && p != PluginSmart then Some((at, payloads[p])) else Lookup(current, p)
  {
  }

  /** Each table is the result of its plugin's run. */
  ghost predicate Consistent(tables: map<Plugin, Table<Payload>>, runs: map<Plugin, seq<Event<Payload>>>) {
    forall p: Plugin :: p in tables && p in runs && tables[p] == Run(AggregationOf(p), runs[p])
  }

  lemma SnapshotIsConsistent(tables: map<Plugin, Table<Payload>>, runs: map<Plugin, seq<Event<Payload>>>,
                             plugin: Plugin, at: int, row: Payload)
    requires Consistent(tables, runs)
    ensures plugin in tables && plugin in runs
    ensures Consistent(tables[plugin := InsertRow(tables[plugin], at, row)],
                       runs[plugin := runs[plugin] + [Snapshot(at, row)]])
    ensures InsertRow(tables[plugin], at, row) == tables[plugin].With(M1, tables[plugin].At(M1)[at := row])
  {
    hide Run, AggregationOf, InsertRow;
    SnapshotRuns(AggregationOf(plugin), runs[plugin], at, row);
  }

  lemma PassIsConsistent(tables: map<Plugin, Table<Payload>>, tables': map<Plugin, Table<Payload>>,
                         runs: map<Plugin, seq<Event<Payload>>>, enabled: set<Plugin>, now: int)
    requires Consistent(tables, runs)
    requires forall p: Plugin :: p in tables' &&
               tables'[p] == if p in enabled then Maintain(AggregationOf(p), tables[p], now) else tables[p]
    ensures Consistent(tables', map p | p in runs :: if p in enabled then runs[p] + [Maintenance(now)] else runs[p])
  {
    hide Run, AggregationOf, Maintain;
    forall p: Plugin
      ensures Run(AggregationOf(p), runs[p] + [Maintenance(now)]) == Maintain(AggregationOf(p), tables[p], now)
    {
      MaintenanceRuns(AggregationOf(p), runs[p], now);
    }
  }

  /** What the collectors hand over: a payload for some plugins, and the encoded host facts. */
  datatype CombinedData = CombinedData(payloads: map<Plugin, Payload>, info: string, details: Option<string>,
                                       summary: string)

  /** The facts kept beside the tables after a collector snapshot. */
  function SnapshotMeta(meta: map<string, string>, at: int, data: CombinedData): map<string, string> {
    var informed := meta["last_info_json" := data.info];
    var detailed := if data.details.Some? then informed["last_details_json" := data.details.value] else informed;
    detailed["last_system_summary_json" := data.summary]["last_persisted_at" := Integer(at)]
  }

  /** One disk's SMART data, and the record it is stored as. */
  datatype SmartItem = SmartItem(diskName: string, data: string)

  datatype SmartRecord = SmartRecord(id: string, key: string, data: string)

  function RecordOf(key: string, item: SmartItem): SmartRecord {
    SmartRecord(if item.diskName != "" then item.diskName else key, key, item.data)
  }

  /** One record per item, in any order. */
  ghost predicate Lists(records: seq<SmartRecord>, items: map<string, SmartItem>) {
    && (forall r :: r in records ==> r.key in items && r == RecordOf(r.key, items[r.key]))
    && (forall k :: k in items ==> RecordOf(k, items[k]) in records)
    && |records| == |items|
  }

  /** The four facts kept beside the tables, and nothing else. */
  lemma SnapshotFacts(meta: map<string, string>, at: int, data: CombinedData, k: string)
    ensures
      var after := Lookup(SnapshotMeta(meta, at, data), k);
      && (k == "last_persisted_at" ==> after == Some(Integer(at)))
      && (k == "last_system_summary_json" ==> after == Some(data.summary))
      && (k == "last_info_json" ==> after == Some(data.info))
      && (k == "last_details_json" && data.details.Some? ==> after == data.details)
      && (k == "last_details_json" && data.details.None? ==> after == Lookup(meta, k))
      && (k !in {"last_persisted_at", "last_system_summary_json", "last_info_json", "last_details_json"} ==>
            after == Lookup(meta, k))
  {
    hide Integer;
    FactNamesDiffer();
  }

  lemma FactNamesDiffer()
    ensures "last_persisted_at" !in {"last_system_summary_json", "last_info_json", "last_details_json"}
    ensures "last_system_summary_json" !in {"last_info_json", "last_details_json"}
    ensures "last_info_json" != "last_details_json"
  {
    assert |"last_persisted_at"| == 17 && |"last_system_summary_json"| == 24;
    assert |"last_info_json"| == 14 && |"last_details_json"| == 17;
    assert "last_persisted_at"[5] == 'p' && "last_details_json"[5] == 'd';
  }

  /** Every disk has one record, under its disk's name if it has one and under its key if not, and
      every record is some disk's. */
  lemma RecordsOfDisks(records: seq<SmartRecord>, items: map<string, SmartItem>)
    requires Lists(records, items)
    ensures forall r :: r in records ==> r.key in items && r.data == items[r.key].data
    ensures forall r :: r in records ==> r.id == if items[r.key].diskName == "" then r.key else items[r.key].diskName
    ensures forall k :: k in items ==> exists r :: r in records && r.key == k
    ensures |records| == |items|
  {
    forall k | k in items
      ensures exists r :: r in records && r.key == k
    {
      assert RecordOf(k, items[k]) in records;
    }
  }

  class Store {
    var tables: map<Plugin, Table<Payload>>
    var current: map<Plugin, (int, Payload)>
    var historyPlugins: set<Plugin>
    var meta: map<string, string>

    /** What has happened to each plugin's table. */
    ghost var events: map<Plugin, seq<Event<Payload>>>

    ghost predicate Complete()
      reads this
    {
      forall p: Plugin :: p in tables
    }

    ghost predicate Valid()
      reads this
    {
      Complete() && Consistent(tables, events)
    }

    constructor (plugins: seq<Plugin>)
      ensures Valid()
      ensures forall p :: p in historyPlugins <==> p in plugins
      ensures forall p: Plugin :: tables[p] == EmptyTable() && events[p] == []
      ensures current == map[] && meta == map[]
    {
      tables := map p: Plugin | p in Everything() :: EmptyTable();
      events := map p: Plugin | p in Everything() :: [];
      current, meta := map[], map[];
      historyPlugins := set p | p in plugins;
      new;
      EverythingIsEverything();
    }

    static function Everything(): set<Plugin> {
      set p | p in PLUGIN_NAMES
    }

    static lemma EverythingIsEverything()
      ensures forall p: Plugin :: p in Everything()
    {
      forall p: Plugin
        ensures p in PLUGIN_NAMES
      {
        assert PLUGIN_NAMES[Rank(p)] == p;
      }
    }

    /** A store opened on the tables that another one left behind. */
    constructor Reopen(store: Store, plugins: seq<Plugin>)
      requires store.Valid()
      ensures Valid()
      ensures forall p :: p in historyPlugins <==> p in plugins
      ensures tables == store.tables && events == store.events && current == store.current && meta == store.meta
    {
      tables, current, events, meta := store.tables, store.current, store.events, store.meta;
      historyPlugins := set p | p in plugins;
    }

    method SetHistoryPlugins(plugins: seq<Plugin>)
      modifies this`historyPlugins
      ensures forall p :: p in historyPlugins <==> p in plugins
    {
      historyPlugins := set p | p in plugins;
    }

    /** All plugins in canonical order. */
    static function PluginNames(): seq<Plugin> {
      PLUGIN_NAMES
    }

    static lemma NamesAreInOrder()
      ensures forall p: Plugin :: Rank(p) < |PluginNames()| && PluginNames()[Rank(p)] == p
      ensures forall i :: 0 <= i < |PluginNames()| ==> Rank(PluginNames()[i]) == i
    {
      NamesAreRanked();
    }

    /** The enabled plugins, each once and in canonical order. */
    method HistoryPluginNames() returns (out: seq<Plugin>)
      ensures forall p :: p in out <==> p in historyPlugins
      ensures forall i, j :: 0 <= i < j < |out| ==> Rank(out[i]) < Rank(out[j])
    {
      hide PluginNames, Rank;
      NamesAreInOrder();
      var names := PluginNames();
      out := [];
      for k := 0 to |names|
        invariant forall p :: p in out <==> p in historyPlugins && Rank(p) < k
        invariant forall i, j :: 0 <= i < j < |out| ==> Rank(out[i]) < Rank(out[j])
      {
        assert forall p :: Rank(p) == k <==> p == names[k];
        if names[k] in historyPlugins {
          assert forall i :: 0 <= i < |out| ==> out[i] in out;
          out := out + [names[k]];
        }
      }
    }

    method InsertPluginHistory(plugin: Plugin, res: Resolution, at: int, row: Payload)
      requires Complete()
      modifies this`tables
      ensures Complete()
      ensures tables == old(tables)[plugin := old(tables)[plugin].With(res, old(tables)[plugin].At(res)[at := row])]
    {
      tables := tables[plugin := tables[plugin].With(res, tables[plugin].At(res)[at := row])];
    }

    method WritePluginSnapshot(plugin: Plugin, at: int, payload: Payload, historyEnabled: bool)
      requires Valid()
      modifies this`tables, this`current, this`events
      ensures Valid()
      ensures current == old(current)[plugin := (at, payload)]
      ensures tables == if historyEnabled
                        then old(tables)[plugin := InsertRow(old(tables)[plugin], at, payload)] else old(tables)
      ensures events == if historyEnabled
                        then old(events)[plugin := old(events)[plugin] + [Snapshot(at, payload)]] else old(events)
    {
      hide Consistent, InsertRow, Table.With, Table.At;
      SnapshotIsConsistent(tables, events, plugin, at, payload);
      current := current[plugin := (at, payload)];
      if historyEnabled {
        InsertPluginHistory(plugin, M1, at, payload);
        events := events[plugin := events[plugin] + [Snapshot(at, payload)]];
      }
    }

    method ApplyRollupStep(plugin: Plugin, step: RollupStep, now: int) returns (ghost windows: nat)
      requires Complete()
      modifies this`tables
      ensures Complete()
      ensures tables == old(tables)[plugin := ApplyStep(AggregationOf(plugin), old(tables)[plugin], step, now)]
      ensures windows == |Cursors(step, StartCursor(Latest(old(tables)[plugin].At(step.longer)), step, now), now)|
    {
      hide Walked, Load, ApplyStep, Table.With, Table.At, Retention, Aggregate, Cursors, Latest, Aligned, StartCursor;
      ghost var agg := AggregationOf(plugin);
      ghost var t := tables[plugin];
      var cursor := now;
      var last := Latest(tables[plugin].At(step.longer));
      if last.Some? {
        cursor := last.value + step.window;
      }
      var oldestUseful := now - Retention(step.shorter);
      if cursor <= oldestUseful {
        cursor := cursor + ((oldestUseful - cursor) / step.window + 1) * step.window;
      }
      ghost var start := StartCursor(last, step, now);
      StartIs(last, step, now);
      StartOfWalk(agg, t, step, start);
      windows := 0;
      while cursor <= now
        invariant start <= cursor && Aligned(cursor, start, step.window)
        invariant cursor > start ==> cursor - step.window <= now
        invariant windows == |Cursors(step, start, cursor - 1)|
        invariant Complete()
        invariant tables == old(tables)[plugin := Walked(agg, t, step, start, cursor)]
        decreases now - cursor
      {
        NextOfWalk(agg, t, step, start, cursor);
        RollWindow(plugin, step, cursor);
        cursor := cursor + step.window;
        windows := windows + 1;
      }
      EndOfWalk(agg, t, step, start, cursor, now);
    }

    /** One window of the walk: its rows, if they are enough, become one row at its end. */
    method RollWindow(plugin: Plugin, step: RollupStep, cursor: int)
      requires Complete()
      modifies this`tables
      ensures Complete()
      ensures
        var t := old(tables)[plugin];
        var rows := Load(t.At(step.shorter), cursor - step.window, cursor);
        tables == if |rows| >= step.minShorterRows
                  then old(tables)[plugin := t.With(step.longer,
                         t.At(step.longer)[cursor := AggregationOf(plugin)(step.longer, cursor, rows)])]
                  else old(tables)
    {
      hide Load, Table.With, Table.At, Aggregate;
      var rows := Load(tables[plugin].At(step.shorter), cursor - step.window, cursor);
      if |rows| >= step.minShorterRows {
        var rolled := AggregatePluginHistory(plugin, rows);
        InsertPluginHistory(plugin, step.longer, cursor, rolled.value);
      }
    }

    method DeleteOldHistory(plugin: Plugin, now: int)
      requires Complete()
      modifies this`tables
      ensures Complete()
      ensures tables == old(tables)[plugin := Prune(old(tables)[plugin], now)]
    {
      hide Keep, Retention, Prune, Table.At, Table.With;
      var todo := RESOLUTIONS;
      AllResolutions();
      ghost var t := tables[plugin];
      while todo != {}
        invariant Complete()
        invariant tables == old(tables)[plugin := tables[plugin]]
        invariant forall r: Resolution ::
                    tables[plugin].At(r) == if r in todo then t.At(r) else Keep(t.At(r), now - Retention(r))
        decreases todo
      {
        var r :| r in todo;
        var kept := Keep(tables[plugin].At(r), now - Retention(r));
        LevelsAfterWith(tables[plugin], r, kept);
        tables := tables[plugin := tables[plugin].With(r, kept)];
        todo := todo - {r};
      }
      SameLevels(tables[plugin], Prune(t, now), t, now);
    }

    method RollupPlugin(plugin: Plugin, now: int)
      requires Complete()
      modifies this`tables
      ensures Complete()
      ensures tables == old(tables)[plugin := Maintain(AggregationOf(plugin), old(tables)[plugin], now)]
    {
      hide AfterSteps, ApplyStep, Cursors, StartCursor, Prune, Maintain;
      ghost var agg := AggregationOf(plugin);
      ghost var t := tables[plugin];
      PassUnfolds(agg, t, now);
      for i := 0 to |STEPS|
        invariant Complete()
        invariant tables == old(tables)[plugin := AfterSteps(agg, t, i, now)]
      {
        PassContinues(agg, t, i, now);
        ghost var windows := ApplyRollupStep(plugin, STEPS[i], now);
      }
      DeleteOldHistory(plugin, now);
    }

    method RollupEnabled(now: int)
      requires Complete()
      modifies this`tables
      ensures Complete()
      ensures forall p: Plugin :: tables[p] ==
                if p in historyPlugins then Maintain(AggregationOf(p), old(tables[p]), now) else old(tables[p])
    {
      hide Maintain, AggregationOf, Rank;
      var names := HistoryPluginNames();
      for k := 0 to |names|
        invariant Complete()
        invariant forall p: Plugin :: tables[p] ==
                    if p in names[..k] then Maintain(AggregationOf(p), old(tables[p]), now) else old(tables[p])
      {
        assert names[k] !in names[..k];
        RollupPlugin(names[k], now);
        assert names[..k + 1] == names[..k] + [names[k]];
      }
      assert names[..|names|] == names;
    }

    /** One pass over the enabled plugins; the others are left alone. */
    method RunMaintenance(now: int)
      requires Valid()
      modifies this`tables, this`events
      ensures Valid()
      ensures forall p: Plugin :: tables[p] ==
                if p in historyPlugins then Maintain(AggregationOf(p), old(tables[p]), now) else old(tables[p])
      ensures forall p: Plugin :: events[p] ==
                if p in historyPlugins then old(events[p]) + [Maintenance(now)] else old(events[p])
    {
      hide Maintain, AggregationOf;
      ghost var before := tables;
      RollupEnabled(now);
      PassIsConsistent(before, tables, events, historyPlugins, now);
      hide Consistent;
      events := map p | p in events :: if p in historyPlugins then events[p] + [Maintenance(now)] else events[p];
    }

    /** A plugin's part of a collector snapshot. */
    method WritePluginRow(plugin: Plugin, at: int, payloads: map<Plugin, Payload>)
      requires Valid()
      modifies this`tables, this`current, this`events
      ensures Valid() && plugin in old(events)
      ensures events == if plugin in payloads && plugin != PluginSmart && plugin in historyPlugins
                        then old(events)[plugin := old(events)[plugin] + [Snapshot(at, payloads[plugin])]]
                        else old(events)
      ensures current == if plugin in payloads && plugin != PluginSmart
                         then old(current)[plugin := (at, payloads[plugin])] else old(current)
    {
      assert plugin in events;
      hide Consistent, InsertRow, Run;
      if plugin == PluginSmart || plugin !in payloads {
        return;
      }
      WritePluginSnapshot(plugin, at, payloads[plugin], plugin in historyPlugins);
    }

    static lemma NotYetNamed(k: nat)
      requires k < |PluginNames()|
      ensures PluginNames()[k] !in PluginNames()[..k]
    {
      hide PluginNames, Rank;
      NamesAreInOrder();
    }

    /** The rows of a collector snapshot: every payload but SMART's. */
    method WritePluginRows(at: int, payloads: map<Plugin, Payload>)
      requires Valid()
      modifies this`tables, this`current, this`events
      ensures Valid()
      ensures events == Recorded(old(events), PluginNames(), at, payloads, historyPlugins)
      ensures current == Replaced(old(current), PluginNames(), at, payloads)
      ensures forall p: Plugin :: p in events && p in old(events) && events[p] ==
                if p in payloads && p != PluginSmart && p in historyPlugins
                then old(events)[p] + [Snapshot(at, payloads[p])] else old(events)[p]
      ensures forall p: Plugin :: Lookup(current, p) ==
                if p in payloads && p != PluginSmart then Some((at, payloads[p])) else Lookup(old(current), p)
    {
      hide Run, PluginNames, Recorded, Replaced, Rank;
      assert forall p: Plugin :: p in events;
      hide Consistent, Store.Valid;
      var names := PluginNames();
      NothingRecorded(events, current, at, payloads, historyPlugins);
      for k := 0 to |names|
        invariant Valid()
        invariant events == Recorded(old(events), names[..k], at, payloads, historyPlugins)
        invariant current == Replaced(old(current), names[..k], at, payloads)
      {
        var plugin := names[k];
        assert names[..k + 1] == names[..k] + [plugin];
        NotYetNamed(k);
        WritePluginRow(plugin, at, payloads);
        RecordNext(old(events), names[..k], plugin, at, payloads, historyPlugins);
        ReplaceNext(old(current), names[..k], plugin, at, payloads);
      }
      assert names[..|names|] == names;
      AllAreNamed();
      RecordedForAll(old(events), names, at, payloads, historyPlugins);
      ReplacedForAll(old(current), names, at, payloads);
    }

    static lemma AllAreNamed()
      ensures forall p: Plugin :: p in PluginNames()
    {
      hide Rank;
      NamesAreInOrder();
      forall p: Plugin
        ensures p in PluginNames()
      {
        assert PluginNames()[Rank(p)] == p;
      }
    }

    /** One collector snapshot, SMART's payload excepted, which WriteSmartDevices writes. */
    method WriteSnapshot(at: int, data: Option<CombinedData>) returns (r: Result<()>)
      requires Valid()
      modifies this`tables, this`current, this`events, this`meta
      ensures Valid() && (r.Err? <==> data.None?)
      ensures data.None? ==> unchanged(this)
      ensures data.Some? ==> events == Recorded(old(events), PluginNames(), at, data.value.payloads, historyPlugins)
      ensures data.Some? ==> current == Replaced(old(current), PluginNames(), at, data.value.payloads)
      ensures data.Some? ==> meta == SnapshotMeta(old(meta), at, data.value)
    {
      hide Consistent, PluginNames, Recorded, Replaced, Integer;
      if data.None? {
        return Err("snapshot data is nil");
      }
      WritePluginRows(at, data.value.payloads);
      meta := meta["last_info_json" := data.value.info];
      if data.value.details.Some? {
        meta := meta["last_details_json" := data.value.details.value];
      }
      meta := meta["last_system_summary_json" := data.value.summary];
      meta := meta["last_persisted_at" := Integer(at)];
      return Ok(());
    }

    /** Stores the SMART data, one record per disk in any order, as one encoded document. */
    method WriteSmartDevices(at: int, items: map<string, SmartItem>, encode: seq<SmartRecord> -> string)
      returns (ghost records: seq<SmartRecord>)
      requires Valid()
      modifies this`tables, this`current, this`events, this`meta
      ensures Valid() && Lists(records, items)
      ensures
        var payload := Payload(NoStats, encode(records));
        && current == old(current)[PluginSmart := (at, payload)]
        && events == (if PluginSmart in historyPlugins
                      then old(events)[PluginSmart := old(events)[PluginSmart] + [Snapshot(at, payload)]]
                      else old(events))
      ensures meta == old(meta)["last_smart_refresh_at" := Integer(at)]
    {
      hide Consistent, Integer, Lists;
      var currentItems := ListItems(items);
      records := currentItems;
      WritePluginSnapshot(PluginSmart, at, Payload(NoStats, encode(currentItems)), PluginSmart in historyPlugins);
      meta := meta["last_smart_refresh_at" := Integer(at)];
    }

    static method ListItems(items: map<string, SmartItem>) returns (records: seq<SmartRecord>)
      ensures Lists(records, items)
    {
      records := [];
      var todo := items.Keys;
      while todo != {}
        invariant todo <= items.Keys
        invariant forall r :: r in records ==> r.key in items && r == RecordOf(r.key, items[r.key])
        invariant forall k :: k in items && k !in todo ==> RecordOf(k, items[k]) in records
        invariant |records| + |todo| == |items.Keys|
        decreases todo
      {
        var key :| key in todo;
        records := records + [RecordOf(key, items[key])];
        todo := todo - {key};
      }
      assert |items.Keys| == |items|;
    }
  }

  /** In every state of a store, whatever plugins were enabled when and whatever the clock did,
      each table is its own run's, and each rolled level keeps its spacing. */
  lemma EveryStateIsSpaced(store: Store, p: Plugin, i: nat)
    requires store.Valid() && i < |STEPS|
    ensures PairwiseAligned(store.tables[p].At(STEPS[i].longer).Keys, STEPS[i].window)
  {
    SpacingHolds(AggregationOf(p), store.events[p], i);
  }

  /** The table once the walk has come to a cursor. */
  function Walked<R>(agg: Aggregator<R>, t: Table<R>, step: RollupStep, start: int, cursor: int): Table<R> {
    t.With(step.longer, t.At(step.longer) + RolledIn(agg, t.At(step.shorter), step, start, cursor - 1))
  }

  lemma StartIs(last: Option<int>, step: RollupStep, now: int)
    ensures
      var base := if last.Some? then last.value + step.window else now;
      var oldest := now - Retention(step.shorter);
      StartCursor(last, step, now)
      == if base <= oldest then base + ((oldest - base) / step.window + 1) * step.window else base
  {
  }

  lemma StartOfWalk<R>(agg: Aggregator<R>, t: Table<R>, step: RollupStep, start: int)
    ensures Walked(agg, t, step, start, start) == t
    ensures Aligned(start, start, step.window)
    ensures Cursors(step, start, start - 1) == {}
  {
    hide InWindow, Load;
    assert RolledIn(agg, t.At(step.shorter), step, start, start - 1) == map[];
    assert t.At(step.longer) + map[] == t.At(step.longer);
    AlignedShift(start, 0, step.window);
  }

  /** Between two neighbouring cursors there is no third. */
  lemma OneMoreCursor(step: RollupStep, start: int, cursor: int)
    requires start <= cursor && Aligned(cursor, start, step.window)
    ensures Cursors(step, start, cursor + step.window - 1) == Cursors(step, start, cursor - 1) + {cursor}
    ensures cursor !in Cursors(step, start, cursor - 1)
    ensures Aligned(cursor + step.window, start, step.window)
  {
    hide Aligned;
    AlignedShift(cursor, 1, step.window);
    AlignedTrans(cursor + 1 * step.window, cursor, start, step.window);
    var visited := Cursors(step, start, cursor + step.window - 1);
    forall c | c in visited && cursor <= c
      ensures c == cursor
    {
      AlignedSame(c, cursor, start, step.window);
    }
  }

  lemma RolledGrows<R>(agg: Aggregator<R>, source: Level<R>, step: RollupStep, start: int, cursor: int)
    requires start <= cursor && Aligned(cursor, start, step.window)
    ensures
      var rows := Load(source, cursor - step.window, cursor);
      var before := RolledIn(agg, source, step, start, cursor - 1);
      RolledIn(agg, source, step, start, cursor + step.window - 1)
      == if |rows| >= step.minShorterRows then before[cursor := agg(step.longer, cursor, rows)] else before
  {
    hide Aligned, Load, InWindow, Cursors;
    OneMoreCursor(step, start, cursor);
  }

  /** Moving the walk by one window inserts that window's row or changes nothing. */
  lemma NextOfWalk<R>(agg: Aggregator<R>, t: Table<R>, step: RollupStep, start: int, cursor: int)
    requires start <= cursor && Aligned(cursor, start, step.window)
    ensures Walked(agg, t, step, start, cursor).At(step.shorter) == t.At(step.shorter)
    ensures
      var here := Walked(agg, t, step, start, cursor);
      var rows := Load(t.At(step.shorter), cursor - step.window, cursor);
      Walked(agg, t, step, start, cursor + step.window)
      == if |rows| >= step.minShorterRows
         then here.With(step.longer, here.At(step.longer)[cursor := agg(step.longer, cursor, rows)]) else here
    ensures Aligned(cursor + step.window, start, step.window)
    ensures |Cursors(step, start, cursor + step.window - 1)| == |Cursors(step, start, cursor - 1)| + 1
  {
    hide Aligned, Load, RolledIn, Cursors, Table.At, Table.With;
    OneMoreCursor(step, start, cursor);
    RolledGrows(agg, t.At(step.shorter), step, start, cursor);
    var before := RolledIn(agg, t.At(step.shorter), step, start, cursor - 1);
    var rows := Load(t.At(step.shorter), cursor - step.window, cursor);
    var old' := t.At(step.longer);
    Overwrite(t, step.longer, step.shorter, old' + before, (old' + before)[cursor := agg(step.longer, cursor, rows)]);
    assert old' + before[cursor := agg(step.longer, cursor, rows)]
        == (old' + before)[cursor := agg(step.longer, cursor, rows)];
  }

  lemma Overwrite<R>(t: Table<R>, r: Resolution, other: Resolution, a: Level<R>, b: Level<R>)
    requires r != other
    ensures t.With(r, a).At(r) == a && t.With(r, a).At(other) == t.At(other)
    ensures t.With(r, a).With(r, b) == t.With(r, b)
  {
  }

  lemma EndOfWalk<R>(agg: Aggregator<R>, t: Table<R>, step: RollupStep, start: int, cursor: int, now: int)
    requires start == StartCursor(Latest(t.At(step.longer)), step, now)
    requires now < cursor && start <= cursor && Aligned(cursor, start, step.window)
    requires cursor > start ==> cursor - step.window <= now
    ensures Walked(agg, t, step, start, cursor) == ApplyStep(agg, t, step, now)
    ensures Cursors(step, start, cursor - 1) == Cursors(step, start, now)
  {
    hide Load, InWindow, Aligned, Table.At, Table.With;
    var visited := Cursors(step, start, cursor - 1);
    forall c | c in visited
      ensures c <= now
    {
      if now < c {
        AlignedSame(c, cursor, start, step.window);
      }
    }
    assert Cursors(step, start, cursor - 1) == Cursors(step, start, now);
    SameRolled(agg, t.At(step.shorter), step, start, cursor - 1, now);
  }

  lemma SameRolled<R>(agg: Aggregator<R>, source: Level<R>, step: RollupStep, start: int, a: int, b: int)
    requires Cursors(step, start, a) == Cursors(step, start, b)
    ensures RolledIn(agg, source, step, start, a) == RolledIn(agg, source, step, start, b)
  {
    hide Load, InWindow, Cursors;
    assert FiredIn(source, step, start, a) == FiredIn(source, step, start, b);
  }

  lemma LevelsAfterWith<R>(t: Table<R>, r: Resolution, level: Level<R>)
    ensures forall q: Resolution :: t.With(r, level).At(q) == if q == r then level else t.At(q)
  {
  }

  lemma SameLevels<R>(a: Table<R>, b: Table<R>, t: Table<R>, now: int)
    requires b == Prune(t, now)
    requires forall r: Resolution :: a.At(r) == Keep(t.At(r), now - Retention(r))
    ensures a == b
  {
    hide Keep;
    assert a.At(M1) == b.m1 && a.At(M10) == b.m10 && a.At(M20) == b.m20 && a.At(M120) == b.m120 && a.At(M480) == b.m480;
  }
}
