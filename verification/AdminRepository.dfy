// The admin repository as it runs: row objects mutated in place inside one
// transaction, old attributes snapshotted before the mutation.
module AdminRepository {
  import opened Common
  import opened AuditLog

  // A mapped row object.
  class ConfigRow {
    var apiKey: Ciphertext
    var baseUrl: Option<string>
    var model: Option<string>
    var enabled: bool

    constructor (row: Row)
      ensures View() == row
    {
      apiKey, baseUrl, model, enabled := row.apiKey, row.baseUrl, row.model, row.enabled;
    }

    function View(): Row
      reads this
    {
      Row(apiKey, baseUrl, model, enabled)
    }
  }

  class Database {
    const tenants: set<string>
    var table: map<Key, Row>
    var log: seq<Entry>

    constructor (tenants: set<string>)
      ensures this.tenants == tenants && Contents() == EMPTY
    {
      this.tenants, table, log := tenants, map[], [];
    }

    function Contents(): Store
      reads this
    {
      Store(table, log)
    }
  }

  // One transaction: uncommitted contents plus the identity map, which holds
  // one object per loaded row and keeps returning that same object.
  class Session {
    const db: Database
    var table: map<Key, Row>
    var log: seq<Entry>
    var loaded: map<Key, ConfigRow>

    ghost predicate Valid()
      reads this, loaded.Values
    {
      && (forall k <- loaded :: k in table && loaded[k].View() == table[k])
      && (forall k, k' | k in loaded && k' in loaded && k != k' :: loaded[k] != loaded[k'])
    }

    constructor (db: Database)
      ensures Valid() && this.db == db && table == db.table && log == db.log && loaded == map[]
    {
      this.db, table, log, loaded := db, db.table, db.log, map[];
    }

    method Fetch(k: Key) returns (row: ConfigRow?)
      requires Valid()
      modifies this
      ensures Valid() && table == old(table) && log == old(log)
      ensures row == null <==> k !in table
      ensures row != null ==> loaded == old(loaded)[k := row] && row.View() == table[k]
      ensures row == null ==> loaded == old(loaded)
      ensures k in old(loaded) ==> row == old(loaded)[k]
      ensures k !in old(loaded) && row != null ==> fresh(row)
      ensures fresh(loaded.Values - old(loaded.Values))
    {
      row := null;
      if k in loaded {
        row := loaded[k];
        assert loaded == loaded[k := row];
      } else if k in table {
        row := new ConfigRow(table[k]);
        loaded := loaded[k := row];
      }
    }

    // INSERT ... ON CONFLICT DO UPDATE ... RETURNING. A row already loaded in
    // this session comes back as the same object, overwritten.
    method Upsert(k: Key, row: Row) returns (obj: ConfigRow)
      requires Valid()
      modifies this, loaded.Values
      ensures Valid() && table == old(table)[k := row] && log == old(log)
      ensures loaded == old(loaded)[k := obj] && obj.View() == row
      ensures if k in old(loaded) then obj == old(loaded)[k] else fresh(obj)
      ensures fresh(loaded.Values - old(loaded.Values))
    {
      table := table[k := row];
      if k in loaded {
        obj := loaded[k];
        obj.apiKey, obj.baseUrl, obj.model, obj.enabled := row.apiKey, row.baseUrl, row.model, row.enabled;
        assert loaded == loaded[k := obj];
      } else {
        obj := new ConfigRow(row);
        loaded := loaded[k := obj];
      }
    }

    // UPDATE ... RETURNING of the columns that are set; an unset column, or a
    // null enabled flag, is not part of the statement.
    method Update(k: Key, enabled: Option<bool>, baseUrl: Option<Option<string>>, model: Option<Option<string>>)
      returns (obj: ConfigRow?)
      requires Valid()
      modifies this, loaded.Values
      ensures Valid() && log == old(log)
      ensures obj == null <==> k !in old(table)
      ensures obj == null ==> table == old(table)
      ensures obj != null ==>
        && table.Keys == old(table).Keys && table == old(table)[k := table[k]]
        && table[k].apiKey == old(table)[k].apiKey
        && table[k].baseUrl == (if baseUrl.Some? then baseUrl.value else old(table)[k].baseUrl)
        && table[k].model == (if model.Some? then model.value else old(table)[k].model)
        && table[k].enabled == (if enabled.Some? then enabled.value else old(table)[k].enabled)
        && obj.View() == table[k]
        && (k in old(loaded) ==> obj == old(loaded)[k])
      ensures fresh(loaded.Values - old(loaded.Values))
    {
      obj := null;
      if k in table {
        var was := table[k];
        obj := Upsert(k, Row(was.apiKey,
                             if baseUrl.Some? then baseUrl.value else was.baseUrl,
                             if model.Some? then model.value else was.model,
                             if enabled.Some? then enabled.value else was.enabled));
      }
    }

    method Remove(k: Key) returns (deleted: bool)
      requires Valid()
      modifies this
      ensures Valid() && log == old(log) && table == old(table) - {k} && deleted == (k in old(table))
      ensures loaded == old(loaded) - {k}
    {
      deleted := k in table;
      table := table - {k};
      loaded := loaded - {k};
    }

    method LatestValue(k: Key, f: Field) returns (v: Option<string>)
      ensures v == LatestFieldValue(log, k, f)
    {
      v := None;
      var n := |log|;
      assert log[..n] == log;
      while n > 0
        invariant 0 <= n <= |log|
        invariant LatestFieldValue(log, k, f) == LatestFieldValue(log[..n], k, f)
      {
        assert log[..n][..n - 1] == log[..n - 1];
        if log[n - 1].key == k && log[n - 1].field == f {
          return log[n - 1].newValue;
        }
        n := n - 1;
      }
    }

    method InsertAudit(rows: seq<Entry>)
      requires Valid()
      modifies `log
      ensures Valid() && log == old(log) + rows
    {
      log := log + rows;
    }

    method Commit()
      modifies db
      ensures db.table == table && db.log == log
    {
      db.table, db.log := table, log;
    }
  }

  // Builds the list of changes by appending, key first.
  method DiffUpsert(isInsert: bool, sent: Option<set<Field>>, was: Snapshot, now: Snapshot,
                    newHash: Option<string>, oldHash: Option<string>) returns (diffs: seq<Diff>)
    ensures diffs == Diffs(isInsert, sent, was, now, newHash, oldHash)
  {
    hide FieldDiff, EnabledRepr;
    diffs := [];
    if newHash.Some? {
      var newRepr := Some(PREFIX + newHash.value);
      if isInsert {
        diffs := diffs + [Diff(ApiKey, Some(INITIAL), newRepr)];
      } else if oldHash != newHash {
        var oldRepr := None;
        if oldHash.Some? {
          oldRepr := Some(PREFIX + oldHash.value);
        }
        diffs := diffs + [Diff(ApiKey, oldRepr, newRepr)];
      }
    }
    diffs := Maybe(diffs, isInsert, sent, BaseUrl, now.baseUrl, was.baseUrl);
    diffs := Maybe(diffs, isInsert, sent, Model, now.model, was.model);
    diffs := Maybe(diffs, isInsert, sent, Enabled, EnabledRepr(now.enabled), EnabledRepr(was.enabled));
  }

  method Maybe(soFar: seq<Diff>, isInsert: bool, sent: Option<set<Field>>, f: Field,
               newValue: Option<string>, oldValue: Option<string>) returns (diffs: seq<Diff>)
    ensures diffs == soFar + FieldDiff(isInsert, sent, f, newValue, oldValue)
  {
    diffs := soFar;
    if sent.Some? && f !in sent.value {
      return;
    }
    if isInsert {
      diffs := diffs + [Diff(f, None, newValue)];
    } else if newValue != oldValue {
      diffs := diffs + [Diff(f, oldValue, newValue)];
    }
  }

  // The repository methods return the outcome and, when a row was saved, its
  // object, detached from the session.
  class AdminTenantLLMConfigRepository {
    const db: Database

    constructor (db: Database)
      ensures this.db == db
    {
      this.db := db;
    }

    // The end both mutations share: audit rows, commit, refresh.
    method Finish(session: Session, key: Key, row: ConfigRow, diffs: seq<Diff>, changedBy: string, fault: Fault)
      returns (outcome: Outcome)
      requires session.Valid() && session.db == db && session.log == db.log
      requires session.table == db.table[key := row.View()]
      modifies db, session`log
      ensures (db.Contents(), outcome)
           == Commit(old(db.Contents()), key, old(row.View()), changedBy, diffs, fault)
      ensures outcome.Saved? ==> outcome.row == row.View()
    {
      if diffs != [] {
        if fault == AtAudit { return Failed; }
        session.InsertAudit(Stamp(key, changedBy, diffs));
      }
      if fault == AtCommit { return Failed; }
      assert diffs == [] ==> old(db.log) + Stamp(key, changedBy, diffs) == old(db.log);
      session.Commit();
      if fault == AfterCommit { return Failed; }
      return Saved(row.View());
    }

    // Snapshot, mutate, compare. The old attributes are read before the
    // mutation: the row that comes back is the object they were read from.
    method UpsertAndDiff(session: Session, key: Key, row: Row, sha: Option<string>)
      returns (newRow: ConfigRow, diffs: seq<Diff>)
      requires session.Valid()
      modifies session, session.loaded.Values
      ensures session.Valid() && session.log == old(session.log)
      ensures newRow.View() == row && session.table == old(session.table)[key := row]
      ensures key !in old(session.loaded) ==> fresh(newRow)
      ensures diffs == Diffs(key !in old(session.table), None, SnapshotOf(old(session.table), key),
                          Snapshot(row.baseUrl, row.model, Some(row.enabled)), sha,
                          StripTag(LatestFieldValue(old(session.log), key, ApiKey)))
    {
      var oldRow := session.Fetch(key);
      var isInsert := oldRow == null;
      var oldHash := session.LatestValue(key, ApiKey);
      if oldHash.Some? && PREFIX <= oldHash.value {
        oldHash := Some(oldHash.value[|PREFIX|..]);
      }
      var was := Snapshot(None, None, None);
      if oldRow != null {
        was := Snapshot(oldRow.baseUrl, oldRow.model, Some(oldRow.enabled));
      }
      newRow := session.Upsert(key, row);
      diffs := DiffUpsert(isInsert, None, was, Snapshot(newRow.baseUrl, newRow.model, Some(newRow.enabled)), sha, oldHash);
    }

    method Upsert(key: Key, apiKey: string, nonce: nat, baseUrl: Option<string>, model: Option<string>,
                  enabled: bool, sha: Option<string>, changedBy: string, fault: Fault)
      returns (outcome: Outcome, newRow: ConfigRow?)
      modifies db
      ensures (db.Contents(), outcome)
           == Exec(db.tenants, old(db.Contents()), Post(key, apiKey, nonce, baseUrl, model, enabled, sha, changedBy), fault)
      ensures outcome.Saved? ==>
        newRow != null && fresh(newRow) && newRow.View() == outcome.row
    {
      newRow := null;
      ghost var op := Post(key, apiKey, nonce, baseUrl, model, enabled, sha, changedBy);
      if fault == AtTenant { return Failed, null; }
      if key.0 !in db.tenants { return UnknownTenant, null; }
      var session := new Session(db);
      var encrypted := Sealed(apiKey, nonce);
      var row, diffs := UpsertAndDiff(session, key, Row(encrypted, baseUrl, model, enabled), sha);
      // Whichever of these steps failed, the session is dropped uncommitted.
      if fault in {AtEncrypt, AtFetch, AtLatest, AtMutate} { return Failed, null; }
      assert diffs == PostDiffs(old(db.Contents()), op);
      outcome := Finish(session, key, row, diffs, changedBy, fault);
      newRow := if outcome.Saved? then row else null;
    }

    // Which columns the request carried, and what the statement sets them to:
    // an empty string clears, an omitted column stays unset.
    method ReadPatch(baseUrl: Option<Option<string>>, model: Option<Option<string>>, enabled: Option<Option<bool>>)
      returns (sent: set<Field>, setBaseUrl: Option<Option<string>>, setModel: Option<Option<string>>,
               setEnabled: Option<bool>)
      ensures BaseUrl in sent <==> baseUrl.Some?
      ensures Model in sent <==> model.Some?
      ensures Enabled in sent <==> enabled.Some?
      ensures sent <= {BaseUrl, Model, Enabled}
      ensures setBaseUrl == if baseUrl.Some? then Some(Normalise(baseUrl.value)) else None
      ensures setModel == if model.Some? then Some(Normalise(model.value)) else None
      ensures setEnabled == if enabled.Some? then enabled.value else None
    {
      sent := {};
      setBaseUrl := None;
      if baseUrl.Some? {
        sent := sent + {BaseUrl};
        setBaseUrl := if baseUrl.value == Some("") then Some(None) else baseUrl;
      }
      setModel := None;
      if model.Some? {
        sent := sent + {Model};
        setModel := if model.value == Some("") then Some(None) else model;
      }
      setEnabled := None;
      if enabled.Some? {
        sent := sent + {Enabled};
        setEnabled := enabled.value;
      }
    }

    method UpdateAndDiff(session: Session, key: Key, oldRow: ConfigRow, baseUrl: Option<Option<string>>,
                         model: Option<Option<string>>, enabled: Option<Option<bool>>, changedBy: string)
      returns (newRow: ConfigRow, diffs: seq<Diff>)
      requires session.Valid() && key in session.loaded && session.loaded[key] == oldRow
      modifies session, session.loaded.Values
      ensures session.Valid() && session.log == old(session.log) && newRow == oldRow
      ensures newRow.View() == PatchRow(old(session.table)[key], Patch(key, baseUrl, model, enabled, changedBy))
      ensures session.table == old(session.table)[key := newRow.View()]
      ensures diffs == PatchDiffs(Store(old(session.table), old(session.log)),
                                  Patch(key, baseUrl, model, enabled, changedBy))
    {
      ghost var op := Patch(key, baseUrl, model, enabled, changedBy);
      var sent, setBaseUrl, setModel, setEnabled := ReadPatch(baseUrl, model, enabled);
      assert sent == Sent(op);
      assert oldRow.View() == session.table[key];
      var was := Snapshot(oldRow.baseUrl, oldRow.model, Some(oldRow.enabled));
      var updated := session.Update(key, setEnabled, setBaseUrl, setModel);
      newRow := updated;
      diffs := DiffUpsert(false, Some(sent), was, Snapshot(newRow.baseUrl, newRow.model, Some(newRow.enabled)), None, None);
    }

    method Update(key: Key, baseUrl: Option<Option<string>>, model: Option<Option<string>>,
                  enabled: Option<Option<bool>>, changedBy: string, fault: Fault)
      returns (outcome: Outcome, newRow: ConfigRow?)
      modifies db
      ensures (db.Contents(), outcome)
           == Exec(db.tenants, old(db.Contents()), Patch(key, baseUrl, model, enabled, changedBy), fault)
      ensures outcome.Saved? ==>
        newRow != null && fresh(newRow) && newRow.View() == outcome.row
    {
      hide PatchRow, PatchDiffs, Commit, PostRow, PostDiffs, Stamp;
      newRow := null;
      if fault == AtTenant { return Failed, null; }
      if key.0 !in db.tenants { return UnknownTenant, null; }
      var session := new Session(db);
      var oldRow := session.Fetch(key);
      if fault == AtFetch { return Failed, null; }
      if oldRow == null { return NotFound, null; }
      var row, diffs := UpdateAndDiff(session, key, oldRow, baseUrl, model, enabled, changedBy);
      if fault == AtMutate { return Failed, null; }
      outcome := Finish(session, key, row, diffs, changedBy, fault);
      newRow := if outcome.Saved? then row else null;
    }

    method Delete(key: Key, changedBy: string, fault: Fault) returns (outcome: Outcome)
      modifies db
      ensures (db.Contents(), outcome) == Exec(db.tenants, old(db.Contents()), AuditLog.Delete(key, changedBy), fault)
      ensures outcome.Removed? ==> key in old(db.table) && db.table == old(db.table) - {key}
    {
      if fault == AtTenant { return Failed; }
      if key.0 !in db.tenants { return UnknownTenant; }
      var session := new Session(db);
      if fault == AtFetch { return Failed; }
      var oldRow := session.Fetch(key);
      if oldRow == null {
        if fault == AtCommit { return Failed; }
        session.Commit();
        return NothingToRemove;
      }
      if fault == AtMutate { return Failed; }
      var deleted := session.Remove(key);
      if fault == AtAudit { return Failed; }
      session.InsertAudit(Stamp(key, changedBy, [Diff(Deleted, Some(key.1), None)]));
      if fault == AtCommit { return Failed; }
      session.Commit();
      return Removed;
    }
  }
}
