/**
 * The record store: one table of records whose payload is ciphertext the store
 * never looks into. The source keeps the table in a JSON file and, on every call,
 * reads the whole table, changes it and writes it back; here the table is a
 * sequence held by the object, and a ghost counter records the rewrites.
 */
module RecordStore {
  import opened Wrappers

  /** One row of the table, with the six keys the source writes. */
  datatype Record = Record(
    id: int,
    recordType: string,
    description: string,
    encryptedData: string,
    createdAt: string,
    updatedAt: string)

  /** The dictionary returned by the statistics call. */
  datatype Statistics = Statistics(totalRecords: nat, byType: map<string, nat>)

  // ---------------------------------------------------------------------------
  // Specification functions

  /** Position of the first record that carries `id`, if any. */
  function IndexOfId(rs: seq<Record>, id: int): (r: Option<nat>)
    ensures r.None? <==> forall k | 0 <= k < |rs| :: rs[k].id != id
    ensures r.Some? ==> r.value < |rs| && rs[r.value].id == id
    ensures r.Some? ==> forall k | 0 <= k < r.value :: rs[k].id != id
  {
    if rs == [] then None
    else if rs[0].id == id then Some(0)
    else match IndexOfId(rs[1..], id)
      case None => None
      case Some(k) => Some(k + 1)
  }

  /** The records whose id differs from `id`, in their original order. */
  function Without(rs: seq<Record>, id: int): (kept: seq<Record>)
  {
    if rs == [] then []
    else
      var last := rs[|rs| - 1];
      Without(rs[..|rs| - 1], id) + (if last.id == id then [] else [last])
  }

  /** The table after the first record carrying `id` gets a new payload, description and update time. */
  function UpdateFirst(rs: seq<Record>, id: int, encryptedData: string, description: string, updatedAt: string): (updated: seq<Record>)
  {
    match IndexOfId(rs, id)
    case None => rs
    case Some(i) => rs[i := rs[i].(encryptedData := encryptedData, description := description, updatedAt := updatedAt)]
  }

  /** The type of every record, in storage order. */
  function TypesOf(rs: seq<Record>): (ts: seq<string>)
    ensures |ts| == |rs| && forall k | 0 <= k < |rs| :: ts[k] == rs[k].recordType
  {
    if rs == [] then [] else TypesOf(rs[..|rs| - 1]) + [rs[|rs| - 1].recordType]
  }

  /** The per-type counter the statistics loop builds, record by record. */
  function CountByType(rs: seq<Record>): (byType: map<string, nat>)
  {
    if rs == [] then map[]
    else
      var counts := CountByType(rs[..|rs| - 1]);
      var t := rs[|rs| - 1].recordType;
      counts[t := (if t in counts then counts[t] else 0) + 1]
  }

  /** Sum of the values of a map. */
  ghost function SumValues(m: map<string, nat>): (sum: nat)
    decreases |m|
  {
    if m == map[] then 0
    else
      var k :| k in m;
      m[k] + SumValues(m - {k})
  }

  /** Ids are exactly 1, 2, ..., n in storage order: the only situation in which the count-based rule keeps ids unique. */
  ghost predicate DenseIds(rs: seq<Record>)
  {
    forall k | 0 <= k < |rs| :: rs[k].id == k + 1
  }

  ghost predicate UniqueIds(rs: seq<Record>)
  {
    forall j, k | 0 <= j < k < |rs| :: rs[j].id != rs[k].id
  }

  // ---------------------------------------------------------------------------
  // Lemmas about the specification functions

  /** Deleting keeps exactly the records with another id, never lengthens the table, and shortens it exactly when the id is present. */
  lemma {:induction false} WithoutSpec(rs: seq<Record>, id: int)
    ensures forall r :: r in Without(rs, id) <==> r in rs && r.id != id
    ensures |Without(rs, id)| <= |rs|
    ensures |Without(rs, id)| < |rs| <==> IndexOfId(rs, id).Some?
  {
    if rs != [] {
      var init := rs[..|rs| - 1];
      WithoutSpec(init, id);
      assert rs == init + [rs[|rs| - 1]];
      if IndexOfId(init, id).Some? {
        var k := IndexOfId(init, id).value;
        assert rs[k].id == id;
      }
    }
  }

  /** Deleting an id that no record carries changes nothing. */
  lemma {:induction false} WithoutAbsent(rs: seq<Record>, id: int)
    requires forall k | 0 <= k < |rs| :: rs[k].id != id
    ensures Without(rs, id) == rs
  {
    if rs != [] {
      WithoutAbsent(rs[..|rs| - 1], id);
    }
  }

  /** Deleting distributes over concatenation: the surviving records keep their relative order. */
  lemma {:induction false} WithoutConcat(a: seq<Record>, b: seq<Record>, id: int)
    ensures Without(a + b, id) == Without(a, id) + Without(b, id)
    decreases |b|
  {
    if b == [] {
      assert a + b == a;
    } else {
      var init := b[..|b| - 1];
      assert (a + b)[..|a + b| - 1] == a + init;
      WithoutConcat(a, init, id);
    }
  }

  /** A successful update keeps the length, and changes only payload, description and update time of the first match. */
  lemma UpdateFirstFrame(rs: seq<Record>, id: int, encryptedData: string, description: string, updatedAt: string)
    ensures var u := UpdateFirst(rs, id, encryptedData, description, updatedAt);
      && |u| == |rs|
      && (forall k | 0 <= k < |rs| ::
            u[k].id == rs[k].id && u[k].recordType == rs[k].recordType && u[k].createdAt == rs[k].createdAt)
      && (forall k | 0 <= k < |rs| && Some(k) != IndexOfId(rs, id) :: u[k] == rs[k])
      && (IndexOfId(rs, id).None? ==> u == rs)
      && (IndexOfId(rs, id).Some? ==>
            var i := IndexOfId(rs, id).value;
            u[i].encryptedData == encryptedData && u[i].description == description && u[i].updatedAt == updatedAt)
  {
  }

  /** Removing one key from a map takes its value out of the sum, whichever key the definition picks first. */
  lemma SumValuesRemove(m: map<string, nat>, k: string)
    requires k in m
    ensures SumValues(m) == m[k] + SumValues(m - {k})
    decreases |m|
  {
    var j :| j in m && SumValues(m) == m[j] + SumValues(m - {j});
    if j != k {
      SumValuesRemove(m - {j}, k);
      SumValuesRemove(m - {k}, j);
      assert m - {j} - {k} == m - {k} - {j};
    }
  }

  /** Each count is the number of records of that type, and a type appears exactly when some record has it. */
  lemma {:induction false} CountByTypeCounts(rs: seq<Record>)
    ensures forall t :: t in CountByType(rs) <==> t in multiset(TypesOf(rs))
    ensures forall t | t in CountByType(rs) :: CountByType(rs)[t] == multiset(TypesOf(rs))[t]
  {
    if rs != [] {
      var init := rs[..|rs| - 1];
      CountByTypeCounts(init);
      assert TypesOf(rs) == TypesOf(init) + [rs[|rs| - 1].recordType];
    }
  }

  /** The per-type counts add up to the number of records. */
  lemma {:induction false} CountByTypeSum(rs: seq<Record>)
    ensures SumValues(CountByType(rs)) == |rs|
  {
    if rs != [] {
      var init := rs[..|rs| - 1];
      var t := rs[|rs| - 1].recordType;
      var counts := CountByType(init);
      CountByTypeSum(init);
      var c := if t in counts then counts[t] else 0;
      var next := counts[t := c + 1];
      assert CountByType(rs) == next;
      SumValuesRemove(next, t);
      assert next - {t} == counts - {t};
      if t in counts {
        SumValuesRemove(counts, t);
      } else {
        assert counts - {t} == counts;
      }
    }
  }

  /** While the ids are 1..n, appending a record with the count-based id keeps them 1..n+1, hence unique. */
  lemma AddKeepsDenseIds(rs: seq<Record>, r: Record)
    requires DenseIds(rs) && r.id == |rs| + 1
    ensures DenseIds(rs + [r]) && UniqueIds(rs + [r])
  {
  }

  /**
   * The count-based id rule collides: with ids 1..n, deleting any record other
   * than the last and then adding one assigns the id n, which the last record
   * still carries.
   */
  lemma DeleteThenAddReusesId(rs: seq<Record>, id: int)
    requires DenseIds(rs) && 1 <= id < |rs|
    ensures var kept := Without(rs, id);
      && |kept| == |rs| - 1
      && kept[|kept| - 1] == rs[|rs| - 1]
      && kept[|kept| - 1].id == |kept| + 1
  {
    var before, hit, after := rs[..id - 1], rs[id - 1..id], rs[id..];
    assert rs == before + hit + after;
    WithoutConcat(before + hit, after, id);
    WithoutConcat(before, hit, id);
    WithoutAbsent(before, id);
    WithoutAbsent(after, id);
    assert Without(hit, id) == [] by {
      assert hit[..0] == [];
    }
    assert Without(rs, id) == before + after;
  }

  // ---------------------------------------------------------------------------
  // The store

  class DatabaseManager {
    /** Whether the database file exists. */
    var fileExists: bool
    /** The table as last written. */
    var records: seq<Record>
    /** How many times the whole table has been written out. */
    ghost var writes: nat

    /** Opens the store over what is on disk (None: no file yet) and makes sure a table exists. */
    constructor (onDisk: Option<seq<Record>>)
      ensures fileExists
      ensures records == if onDisk.Some? then onDisk.value else []
      ensures writes == if onDisk.Some? then 0 else 1
    {
      fileExists := onDisk.Some?;
      records := if onDisk.Some? then onDisk.value else [];
      writes := 0;
      new;
      EnsureExists();
    }

    /** Creates an empty table when there is no file; otherwise does nothing. */
    method EnsureExists()
      modifies this
      ensures fileExists
      ensures records == if old(fileExists) then old(records) else []
      ensures writes == old(writes) + (if old(fileExists) then 0 else 1)
    {
      if !fileExists {
        fileExists, records := true, [];
        writes := writes + 1;
      }
    }

    /** Appends one record whose id is the record count plus one, and returns that id. */
    method AddRecord(encryptedData: string, recordType: string, description: string, createdAt: string, updatedAt: string)
      returns (id: int)
      requires fileExists
      modifies this`records, this`writes
      ensures id == |old(records)| + 1
      ensures records == old(records) + [Record(id, recordType, description, encryptedData, createdAt, updatedAt)]
      ensures writes == old(writes) + 1
    {
      id := |records| + 1;
      var record := Record(id, recordType, description, encryptedData, createdAt, updatedAt);
      records := records + [record];
      writes := writes + 1;
    }

    /** All records, in storage order. */
    method GetAllRecords() returns (rs: seq<Record>)
      requires fileExists
      ensures rs == records
    {
      rs := records;
    }

    /** The first record carrying `id`, or None when no record does. */
    method GetRecord(id: int) returns (r: Option<Record>)
      requires fileExists
      ensures r.None? <==> forall k | 0 <= k < |records| :: records[k].id != id
      ensures r.Some? ==> IndexOfId(records, id).Some? && r.value == records[IndexOfId(records, id).value]
    {
      var rs := GetAllRecords();
      var i := 0;
      while i < |rs|
        invariant 0 <= i <= |rs|
        invariant forall k | 0 <= k < i :: rs[k].id != id
      {
        if rs[i].id == id {
          return Some(rs[i]);
        }
        i := i + 1;
      }
      return None;
    }

    /**
     * Removes every record carrying `id`, keeping the others in order; reports
     * (and writes the table) only when the table got shorter.
     */
    method DeleteRecord(id: int) returns (removed: bool)
      requires fileExists
      modifies this`records, this`writes
      ensures records == Without(old(records), id)
      ensures removed == (|records| < |old(records)|)
      ensures removed <==> IndexOfId(old(records), id).Some?
      ensures writes == old(writes) + (if removed then 1 else 0)
    {
      var initialCount := |records|;
      var kept: seq<Record> := [];
      var i := 0;
      while i < |records|
        invariant 0 <= i <= |records|
        invariant kept == Without(records[..i], id)
      {
        assert records[..i + 1][..i] == records[..i];
        if records[i].id != id {
          kept := kept + [records[i]];
        }
        i := i + 1;
      }
      assert records[..i] == records;
      WithoutSpec(records, id);
      records := kept;
      removed := |records| < initialCount;
      if removed {
        writes := writes + 1;
      }
    }

    /**
     * Gives the first record carrying `id` a new payload, description and update
     * time; leaves the contents alone when there is none, but writes the table
     * in both cases.
     */
    method UpdateRecord(id: int, encryptedData: string, description: string, updatedAt: string)
      requires fileExists
      modifies this`records, this`writes
      ensures records == UpdateFirst(old(records), id, encryptedData, description, updatedAt)
      ensures writes == old(writes) + 1
    {
      var i := 0;
      while i < |records|
        invariant 0 <= i <= |records|
        invariant records == old(records)
        invariant forall k | 0 <= k < i :: records[k].id != id
      {
        if records[i].id == id {
          records := records[i := records[i].(encryptedData := encryptedData, description := description, updatedAt := updatedAt)];
          break;
        }
        i := i + 1;
      }
      writes := writes + 1;
    }

    /** The total and the per-type counts of the table. */
    method GetStatistics() returns (stats: Statistics)
      requires fileExists
      ensures stats.totalRecords == |records|
      ensures stats.byType == CountByType(records)
      ensures forall t :: t in stats.byType <==> t in multiset(TypesOf(records))
      ensures forall t | t in stats.byType :: stats.byType[t] == multiset(TypesOf(records))[t]
      ensures SumValues(stats.byType) == stats.totalRecords
    {
      var rs := GetAllRecords();
      var byType: map<string, nat> := map[];
      for i := 0 to |rs|
        invariant byType == CountByType(rs[..i])
      {
        assert rs[..i + 1][..i] == rs[..i];
        var t := rs[i].recordType;
        byType := byType[t := (if t in byType then byType[t] else 0) + 1];
      }
      assert rs[..|rs|] == rs;
      CountByTypeCounts(rs);
      CountByTypeSum(rs);
      stats := Statistics(|rs|, byType);
    }
  }

  /**
   * Three records added to a fresh store get ids 1, 2, 3; after deleting id 2,
   * the next add is given id 3 again, the id the third record still carries.
   */
  method AddDeleteAddScenario() returns (newId: int, survivorId: int)
    ensures newId == 3 && survivorId == 3
  {
    var db := new DatabaseManager(None);
    var a := db.AddRecord("ciphertext-a", "ученик", "A", "t1", "t1");
    var b := db.AddRecord("ciphertext-b", "учитель", "B", "t2", "t2");
    var c := db.AddRecord("ciphertext-c", "родитель", "C", "t3", "t3");
    assert a == 1 && b == 2 && c == 3;
    DeleteThenAddReusesId(db.records, 2);
    var removed := db.DeleteRecord(b);
    newId := db.AddRecord("ciphertext-d", "ученик", "D", "t4", "t4");
    survivorId := db.records[1].id;
  }
}
