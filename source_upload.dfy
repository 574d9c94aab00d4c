/**
 * Uploading a parsed csv or Excel file into a table of a MySQL source: the
 * file and source guards, the mode rules deciding which SQL statements run
 * (create, drop, truncate, insert), and the paging that splits the rows into
 * batches of at most 1000 for the insert workers.
 */
module SourceUpload {
  import opened Base

  /**
   * The upload modes: a new table, replacing the rows of an existing one,
   * covering (dropping and recreating) the table, and any other mode code,
   * which appends to an existing table.
   */
  datatype UploadMode = NewTable | Replace | Cover | Append

  /** The file types a request may name. */
  datatype FileType = Csv | Xlsx | Xls | OtherType(name: string)

  datatype UploadError =
    | UnsupportedFormat
    | NotCsv
    | NotExcel
    | UnsupportedSource
    | NoFields
    | TableAlreadyExists
    | TableNotExists

  /** Rows `[from, to)` of the uploaded values. */
  datatype Slice = Slice(from: nat, to: nat)

  /** A statement run against the target table. */
  datatype SqlAction = DropTable | CreateTable | TruncateTable | InsertRows(rows: Slice)

  /** Rows per insert batch. */
  const PageLength: nat := 1000
  /** The most insert workers a batch runs on. */
  const MaxWorkers: nat := 8

  function Min(a: int, b: int): int {
    if a <= b then a else b
  }

  // ---- guards ----

  /**
   * The checks ahead of any parsing, in the order they run: the file type,
   * the content sniffing of csv and xlsx files (xls files are not sniffed),
   * and the source's url, which must be a MySQL one.
   */
  function UploadGuard(fileType: FileType, looksLikeCsv: bool, looksLikeExcel: bool, mysqlUrl: bool): (e: Option<UploadError>)
    ensures e.None? <==> (fileType.Csv? || fileType.Xlsx? || fileType.Xls?)
                         && (fileType.Csv? ==> looksLikeCsv)
                         && (fileType.Xlsx? ==> looksLikeExcel)
                         && mysqlUrl
    ensures fileType.OtherType? ==> e == Some(UnsupportedFormat)
    ensures e == Some(NotCsv) <==> fileType.Csv? && !looksLikeCsv
    ensures e == Some(NotExcel) <==> fileType.Xlsx? && !looksLikeExcel
    ensures e == Some(UnsupportedSource) <==>
              !fileType.OtherType? && (fileType.Csv? ==> looksLikeCsv) && (fileType.Xlsx? ==> looksLikeExcel) && !mysqlUrl
  {
    if fileType.OtherType? then Some(UnsupportedFormat)
    else if fileType.Csv? && !looksLikeCsv then Some(NotCsv)
    else if fileType.Xlsx? && !looksLikeExcel then Some(NotExcel)
    else if !mysqlUrl then Some(UnsupportedSource)
    else None
  }

  /** validCsvmeta's rule: a new table must not exist yet, every other mode needs it. */
  function TableCheck(mode: UploadMode, present: bool): (e: Option<UploadError>)
    ensures e.None? <==> (mode == NewTable <==> !present)
    ensures e.Some? ==> e.value == (if present then TableAlreadyExists else TableNotExists)
  {
    if mode == NewTable then (if present then Some(TableAlreadyExists) else None)
    else if !present then Some(TableNotExists)
    else None
  }

  // ---- mode rules ----

  /**
   * createTable: no columns is an error; COVER drops and recreates the table
   * whatever is there; NEW creates it and needs it absent; the other modes
   * create nothing and need it present.
   */
  function CreateTablePlan(mode: UploadMode, columns: nat, present: bool): (r: Result<seq<SqlAction>, UploadError>)
    ensures columns == 0 <==> r == Err(NoFields)
    ensures columns > 0 && mode == Cover ==> r == Ok([DropTable, CreateTable])
    ensures columns > 0 && mode == NewTable ==> r == if present then Err(TableAlreadyExists) else Ok([CreateTable])
    ensures columns > 0 && mode != Cover && mode != NewTable ==> r == if present then Ok([]) else Err(TableNotExists)
  {
    if columns == 0 then Err(NoFields)
    else if mode == Cover then Ok([DropTable, CreateTable])
    else if mode == NewTable then (if present then Err(TableAlreadyExists) else Ok([CreateTable]))
    else if present then Ok([])
    else Err(TableNotExists)
  }

  /** One insert per page of the rows. */
  function Inserts(slices: seq<Slice>): (r: seq<SqlAction>)
    ensures |r| == |slices|
    ensures forall i :: 0 <= i < |r| ==> r[i] == InsertRows(slices[i])
  {
    seq(|slices|, i requires 0 <= i < |slices| => InsertRows(slices[i]))
  }

  /**
   * insertData: nothing for no rows; COVER and REPLACE truncate and then
   * insert; the other modes insert into the table when it exists.
   */
  function InsertPlan(mode: UploadMode, rows: nat, present: bool): (r: Result<seq<SqlAction>, UploadError>)
    ensures rows == 0 ==> r == Ok([])
    ensures rows > 0 && (mode == Cover || mode == Replace) ==> r == Ok([TruncateTable] + Inserts(PageSlices(rows)))
    ensures rows > 0 && mode != Cover && mode != Replace ==>
              r == if present then Ok(Inserts(PageSlices(rows))) else Err(TableNotExists)
  {
    if rows == 0 then Ok([])
    else if mode == Cover || mode == Replace then Ok([TruncateTable] + Inserts(PageSlices(rows)))
    else if present then Ok(Inserts(PageSlices(rows)))
    else Err(TableNotExists)
  }

  /** Whether the table exists after the statements run. */
  function ExistsAfter(actions: seq<SqlAction>, present: bool): bool
    decreases |actions|
  {
    if actions == [] then present
    else ExistsAfter(actions[1..], match actions[0] case DropTable => false case CreateTable => true case _ => present)
  }

  /**
   * The statements run cleanly from the given existence of the table: a
   * table is created only when absent, and truncated or inserted into only
   * when present.
   */
  predicate Runs(actions: seq<SqlAction>, present: bool)
    decreases |actions|
  {
    if actions == [] then true
    else match actions[0]
      case DropTable => Runs(actions[1..], false)
      case CreateTable => !present && Runs(actions[1..], true)
      case TruncateTable => present && Runs(actions[1..], true)
      case InsertRows(_) => present && Runs(actions[1..], true)
  }

  /**
   * The statements of a whole upload of `columns` columns and `rows` rows:
   * no columns means nothing is done; otherwise createTable, then insertData
   * against the table as createTable left it.
   */
  function UploadPlan(mode: UploadMode, columns: nat, rows: nat, present: bool): (r: Result<seq<SqlAction>, UploadError>)
    ensures columns == 0 ==> r == Ok([])
    ensures columns > 0 && mode == NewTable && present ==> r == Err(TableAlreadyExists)
    ensures columns > 0 && (mode == Replace || mode == Append) && !present ==> r == Err(TableNotExists)
    ensures columns > 0 && mode == Cover ==> r.Ok? && |r.value| >= 2 && r.value[..2] == [DropTable, CreateTable]
  {
    if columns == 0 then Ok([])
    else match CreateTablePlan(mode, columns, present)
      case Err(e) => Err(e)
      case Ok(created) =>
        match InsertPlan(mode, rows, ExistsAfter(created, present))
        case Err(e) => Err(e)
        case Ok(inserted) => Ok(created + inserted)
  }

  lemma {:induction false} RunsAppend(a: seq<SqlAction>, b: seq<SqlAction>, present: bool)
    requires Runs(a, present) && Runs(b, ExistsAfter(a, present))
    ensures Runs(a + b, present)
    decreases |a|
  {
    if a != [] {
      assert (a + b)[1..] == a[1..] + b;
      var next := match a[0] case DropTable => false case CreateTable => true case _ => present;
      RunsAppend(a[1..], b, next);
    } else {
      assert a + b == b;
    }
  }

  lemma {:induction false} InsertsRun(slices: seq<Slice>)
    ensures Runs(Inserts(slices), true)
    decreases |slices|
  {
    if slices != [] {
      assert Inserts(slices)[1..] == Inserts(slices[1..]);
      InsertsRun(slices[1..]);
    }
  }

  /**
   * Every plan an upload accepts runs cleanly: no CREATE hits an existing
   * table and no TRUNCATE or INSERT a missing one.
   */
  lemma UploadPlanRuns(mode: UploadMode, columns: nat, rows: nat, present: bool)
    requires UploadPlan(mode, columns, rows, present).Ok?
    ensures Runs(UploadPlan(mode, columns, rows, present).value, present)
  {
    if columns > 0 {
      var created := CreateTablePlan(mode, columns, present).value;
      var after := ExistsAfter(created, present);
      var inserted := InsertPlan(mode, rows, after).value;
      assert after == (mode == Cover || mode == NewTable || present) by {
        if mode == Cover {
          assert created[1..][1..] == [];
        } else if mode == NewTable {
          assert created[1..] == [];
        }
      }
      InsertsRun(PageSlices(rows));
      if rows > 0 && (mode == Cover || mode == Replace) {
        assert ([TruncateTable] + Inserts(PageSlices(rows)))[1..] == Inserts(PageSlices(rows));
      }
      if mode == Cover {
        assert created[1..][1..] == [];
      } else if mode == NewTable {
        assert created[1..] == [];
      }
      RunsAppend(created, inserted, present);
    }
  }

  /**
   * For every mode but COVER, createTable refuses exactly the tables
   * validCsvmeta refuses, with the same error. COVER is where they part:
   * validCsvmeta refuses an absent table, which createTable simply creates.
   */
  lemma CreateTableAgreesWithCsvMeta(mode: UploadMode, columns: nat, present: bool)
    requires columns > 0
    ensures mode != Cover ==>
              (CreateTablePlan(mode, columns, present).Err? <==> TableCheck(mode, present).Some?)
    ensures mode != Cover && CreateTablePlan(mode, columns, present).Err? ==>
              CreateTablePlan(mode, columns, present).error == TableCheck(mode, present).value
    ensures mode == Cover ==> CreateTablePlan(mode, columns, present).Ok?
    ensures mode == Cover ==> (TableCheck(mode, present).Some? <==> !present)
  {
  }

  // ---- paging ----

  /** ceil(total / 1000): the number of insert batches. */
  function PageCount(total: nat): (n: nat)
    ensures (n - 1) * PageLength < total <= n * PageLength || (total == 0 && n == 0)
  {
    total / PageLength + (if total % PageLength != 0 then 1 else 0)
  }

  /** Batch p (from 0) covers rows [p * 1000, min((p + 1) * 1000, total)). */
  function PageSlices(total: nat): (s: seq<Slice>)
    ensures |s| == PageCount(total)
    ensures forall p :: 0 <= p < |s| ==> s[p] == Slice(p * PageLength, Min((p + 1) * PageLength, total))
  {
    seq(PageCount(total), p requires 0 <= p => Slice(p * PageLength, Min((p + 1) * PageLength, total)))
  }

  /** `slices` tile [from, to): each starts where the previous ended, none is empty. */
  predicate Tiles(slices: seq<Slice>, from: nat, to: nat)
    decreases |slices|
  {
    if slices == [] then from == to
    else slices[0].from == from && from < slices[0].to && Tiles(slices[1..], slices[0].to, to)
  }

  /** The rows the slices pick out, in order. */
  function Gather<T>(values: seq<T>, slices: seq<Slice>): seq<T>
    requires forall i :: 0 <= i < |slices| ==> slices[i].from <= slices[i].to <= |values|
    decreases |slices|
  {
    if slices == [] then [] else values[slices[0].from..slices[0].to] + Gather(values, slices[1..])
  }

  lemma {:induction false} TilesBounds(slices: seq<Slice>, from: nat, to: nat)
    requires Tiles(slices, from, to)
    ensures from <= to
    ensures forall i :: 0 <= i < |slices| ==> from <= slices[i].from < slices[i].to <= to
    decreases |slices|
  {
    if slices != [] {
      TilesBounds(slices[1..], slices[0].to, to);
      forall i | 0 < i < |slices|
        ensures from <= slices[i].from < slices[i].to <= to
      {
        assert slices[i] == slices[1..][i - 1];
      }
    }
  }

  /** Slices that tile [from, to) gather exactly those rows. */
  lemma {:induction false} TilesGather<T>(values: seq<T>, slices: seq<Slice>, from: nat, to: nat)
    requires Tiles(slices, from, to) && to <= |values|
    ensures from <= to
    ensures forall i :: 0 <= i < |slices| ==> slices[i].from <= slices[i].to <= |values|
    ensures Gather(values, slices) == values[from..to]
    decreases |slices|
  {
    TilesBounds(slices, from, to);
    if slices != [] {
      TilesGather(values, slices[1..], slices[0].to, to);
      assert values[from..to] == values[from..slices[0].to] + values[slices[0].to..to];
    }
  }

  /** The batches from page k on tile the rows from k * 1000 to the end. */
  lemma {:induction false} PageSlicesTileFrom(total: nat, k: nat)
    requires k <= PageCount(total)
    ensures Tiles(PageSlices(total)[k..], Min(k * PageLength, total), total)
    decreases PageCount(total) - k
  {
    var s := PageSlices(total);
    if k < |s| {
      PageSlicesTileFrom(total, k + 1);
      assert s[k..][1..] == s[k + 1..];
      assert k * PageLength < total;
    } else {
      assert s[k..] == [];
    }
  }

  /**
   * The batches are contiguous, non-empty, non-overlapping and cover the
   * rows exactly: gathering them gives back every row, in order.
   */
  lemma PagesCoverRows<T>(values: seq<T>)
    ensures Tiles(PageSlices(|values|), 0, |values|)
    ensures forall i :: 0 <= i < |PageSlices(|values|)| ==> PageSlices(|values|)[i].to <= |values|
    ensures Gather(values, PageSlices(|values|)) == values
  {
    PageSlicesTileFrom(|values|, 0);
    assert PageSlices(|values|)[0..] == PageSlices(|values|);
    TilesGather(values, PageSlices(|values|), 0, |values|);
  }

  /** No batch is empty, and none holds more than 1000 rows. */
  lemma PagesAreBounded(total: nat)
    ensures forall p :: 0 <= p < |PageSlices(total)| ==>
              0 < PageSlices(total)[p].to - PageSlices(total)[p].from <= PageLength
  {
    forall p | 0 <= p < |PageSlices(total)|
      ensures 0 < PageSlices(total)[p].to - PageSlices(total)[p].from
    {
      assert p * PageLength <= (PageCount(total) - 1) * PageLength;
    }
  }

  /**
   * executeInsert's paging: the page size is 1000, or the row count when
   * there are fewer rows; pages are numbered from 1 and page p covers
   * [(p - 1) * size, min(p * size, total)). The worker pool has min(pages, 8)
   * threads; with no rows nothing is submitted.
   */
  method InsertPages(totalSize: nat) returns (slices: seq<Slice>, workers: nat)
    ensures slices == PageSlices(totalSize)
    ensures workers == Min(|slices|, MaxWorkers)
  {
    if totalSize == 0 {
      return [], 0;
    }
    var len := PageLength;
    var pageSize := len;
    var totalPage := totalSize / pageSize;
    if totalSize % pageSize != 0 {
      totalPage := totalPage + 1;
      if totalSize < pageSize {
        pageSize := totalSize;
      }
    }
    assert totalPage == PageCount(totalSize);
    assert pageSize < PageLength ==> totalPage == 1;
    workers := Min(totalPage, MaxWorkers);
    slices := [];
    var pageNum := 1;
    while pageNum < totalPage + 1
      invariant 1 <= pageNum <= totalPage + 1
      invariant slices == PageSlices(totalSize)[..pageNum - 1]
    {
      var starNum := (pageNum - 1) * pageSize;
      var endNum := Min(pageNum * pageSize, totalSize);
      assert Slice(starNum, endNum) == PageSlices(totalSize)[pageNum - 1];
      slices := slices + [Slice(starNum, endNum)];
      pageNum := pageNum + 1;
    }
    assert PageSlices(totalSize)[..totalPage] == PageSlices(totalSize);
  }

  /**
   * Up to 2,147,483,000 rows the page bounds stay within Java's int range,
   * so computing them with unbounded integers matches the source there.
   */
  lemma PageBoundsFitInt(total: nat, p: nat)
    requires total <= 2147483000 && 1 <= p <= PageCount(total)
    ensures p * PageLength <= 0x7fff_ffff
  {
    assert (p - 1) * PageLength < total;
  }
}
