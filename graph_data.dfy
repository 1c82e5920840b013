/**
 * The persisted record store (mystery_graph_bot/graph_data.py; the monolith
 * mysterygraphbot.py carries the same code as its `data` property and
 * `save_data`). The record is loaded lazily on first access; any load failure
 * yields the all-null record; a failed save is only logged.
 *
 * The file system is modelled by the contents of the one file the store uses
 * and by the outcome of each write, which the caller supplies.
 */
module GraphStore {
  import opened Wrappers
  import opened Serializers

  /** What the file at `filepath` holds. */
  datatype FileContents =
    | Absent              // no file, or it cannot be opened for reading
    | Garbage             // anything but a JSON dump of a record: empty, truncated, not JSON
    | Json(record: Data)  // the `json.dump` of a record, null fields included

  /** How one `open(filepath, 'w')` followed by `json.dump` ends. */
  datatype WriteOutcome =
    | Written     // the whole record was written
    | OpenFailed  // `open` raised: the file was not touched
    | DumpFailed  // `open` truncated the file, then `json.dump` raised part-way

  /**
   * `load_data_with_schema_from_json_path(Data(), filepath)` with every
   * failure (missing file, not JSON, a field missing or null) caught and
   * replaced by the all-null record.
   */
  function Load(file: FileContents): (d: Data)
    ensures Consistent(d)
  {
    if file.Json? && Complete(file.record) then file.record else EmptyData
  }

  /** The file after saving `record` (the record is read before the file is opened). */
  function SavedFile(before: FileContents, record: Data, w: WriteOutcome): FileContents {
    match w
    case Written => Json(record)
    case OpenFailed => before
    case DumpFailed => Garbage
  }

  /**
   * The file after `save` AS WRITTEN: `open(filepath, 'w')` truncates the file
   * before `self.data` is evaluated, so a store that has not loaded its record
   * yet loads it from the truncated file and gets the all-null record.
   */
  function SavedFileAsWritten(before: FileContents, cache: Option<Data>, w: WriteOutcome): FileContents {
    match w
    case Written => Json(if cache.Some? then cache.value else Load(Garbage))
    case OpenFailed => before
    case DumpFailed => Garbage
  }

  /** A complete or empty record survives a save and a later load unchanged. */
  lemma SaveThenLoad(before: FileContents, d: Data)
    requires Consistent(d)
    ensures Load(SavedFile(before, d, Written)) == d
  {
  }

  /** A failed open leaves the file, and so the next load, as they were. */
  lemma FailedOpenKeepsFile(before: FileContents, d: Data)
    ensures Load(SavedFile(before, d, OpenFailed)) == Load(before)
  {
  }

  /** A write that fails part-way leaves a file that loads as the empty record: the write is not atomic. */
  lemma FailedDumpLosesRecord(before: FileContents, d: Data)
    ensures SavedFile(before, d, DumpFailed) == Garbage
    ensures Load(SavedFile(before, d, DumpFailed)) == EmptyData
  {
  }

  /** Any file that is not a complete record loads as the all-null record. */
  lemma LoadFallsBack(file: FileContents)
    requires !(file.Json? && Complete(file.record))
    ensures Load(file) == EmptyData
  {
  }

  /**
   * The save discrepancy, exhibited: a store holding a complete record on
   * disk, saved before anything read it, overwrites that record with nulls;
   * reading first (as `SavedFile` does) writes the record back unchanged.
   */
  lemma SaveBeforeFirstReadLosesRecord(d: Data)
    requires Complete(d)
    ensures SavedFileAsWritten(Json(d), None, Written) == Json(EmptyData)
    ensures Load(SavedFileAsWritten(Json(d), None, Written)) == EmptyData != d
    ensures SavedFile(Json(d), Load(Json(d)), Written) == Json(d)
  {
  }

  /** Once the record is cached, saving as written and saving as intended agree. */
  lemma SaveAgreesOnceLoaded(before: FileContents, d: Data, w: WriteOutcome)
    ensures SavedFileAsWritten(before, Some(d), w) == SavedFile(before, d, w)
  {
  }

  /** The keys of the record. */
  datatype Key = EtagKey | LiksKey | NomsKey

  /** One key of the record together with its value. */
  datatype Field = Etag(etag: Option<string>) | Liks(liks: Option<int>) | Noms(noms: Option<int>)

  function KeyOf(f: Field): Key {
    match f
    case Etag(_) => EtagKey
    case Liks(_) => LiksKey
    case Noms(_) => NomsKey
  }

  /** `record[key]` */
  function Get(d: Data, k: Key): (f: Field)
    ensures KeyOf(f) == k
  {
    match k
    case EtagKey => Etag(d.etag)
    case LiksKey => Liks(d.liks)
    case NomsKey => Noms(d.noms)
  }

  /** The record after `record[key] = value`. */
  function With(d: Data, f: Field): Data {
    match f
    case Etag(e) => d.(etag := e)
    case Liks(l) => d.(liks := l)
    case Noms(n) => d.(noms := n)
  }

  /** Writing a key changes that key and no other. */
  lemma WithChangesOnlyItsKey(d: Data, f: Field, k: Key)
    ensures Get(With(d, f), KeyOf(f)) == f
    ensures k != KeyOf(f) ==> Get(With(d, f), k) == Get(d, k)
  {
  }

  /** `GraphData(filepath)` */
  class GraphData {
    var cache: Option<Data>   // `_data`: nothing until the first access
    var file: FileContents    // what the file at `filepath` holds
    ghost var loads: nat      // how many times the file has been read

    /** The record every access returns: the cached one, or what loading the file yields. */
    function Current(): Data
      reads this
    {
      if cache.Some? then cache.value else Load(file)
    }

    constructor(file: FileContents)
      ensures cache == None && this.file == file && loads == 0
      ensures Current() == Load(file)
    {
      cache := None;
      this.file := file;
      loads := 0;
    }

    /** The `data` property: loads the file on the first access only. */
    method GetData() returns (d: Data)
      modifies this`cache, this`loads
      ensures d == old(Current()) && cache == Some(d)
      ensures loads == old(loads) + (if old(cache).None? then 1 else 0)
    {
      if cache.None? {
        cache := Some(Load(file));
        loads := loads + 1;
      }
      d := cache.value;
    }

    /** The `data` setter. */
    method SetData(d: Data)
      modifies this`cache
      ensures cache == Some(d)
    {
      cache := Some(d);
    }

    /** `__getitem__` */
    method GetItem(k: Key) returns (f: Field)
      modifies this`cache, this`loads
      ensures f == Get(old(Current()), k)
      ensures cache == Some(old(Current()))
      ensures loads == old(loads) + (if old(cache).None? then 1 else 0)
    {
      var d := GetData();
      f := Get(d, k);
    }

    /** `__setitem__` */
    method SetItem(f: Field)
      modifies this`cache, this`loads
      ensures cache == Some(With(old(Current()), f))
      ensures loads == old(loads) + (if old(cache).None? then 1 else 0)
    {
      var d := GetData();
      cache := Some(With(d, f));
    }

    /** `save`, with the record read before the file is opened; failures are only logged. */
    method Save(w: WriteOutcome)
      modifies this
      ensures file == SavedFile(old(file), old(Current()), w)
      ensures cache == Some(old(Current()))
      ensures loads == old(loads) + (if old(cache).None? then 1 else 0)
    {
      var d := GetData();
      match w
      case Written => file := Json(d);
      case OpenFailed =>
      case DumpFailed => file := Garbage;
    }

    /** `save` as written: the file is opened, and so truncated, before the record is read. */
    method SaveAsWritten(w: WriteOutcome)
      modifies this
      ensures file == SavedFileAsWritten(old(file), old(cache), w)
      ensures w == OpenFailed ==> cache == old(cache) && loads == old(loads)
      ensures w != OpenFailed ==> cache == Some(if old(cache).Some? then old(cache).value else EmptyData)
      ensures w != OpenFailed ==> loads == old(loads) + (if old(cache).None? then 1 else 0)
    {
      if w != OpenFailed {
        file := Garbage;
        var d := GetData();
        if w == Written {
          file := Json(d);
        }
      }
    }
  }
}
