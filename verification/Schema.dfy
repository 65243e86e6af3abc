/** The tables of the database, as values. */
module Schema {
  import opened Collections

  type RecordId = string
  type TableName = string
  type Time = int

  /** The four catalogs that are aggregated from layer 1 to layer 2. */
  datatype Catalog = Designation | Icrs | Redshift | Nature

  datatype DataType = Regular | Reprocessing | Preliminary | Compilation

  datatype Triage = Pending | Resolved

  /** The JSON values a crossmatch row can hold. */
  datatype Json = Null | Number(n: int) | Numbers(items: seq<int>)

  type JsonObject = map<string, Json>

  datatype Crossmatch = Crossmatch(triage: Triage, metadata: Option<JsonObject>)

  datatype Record = Record(table: TableName, pgc: Option<Pgc>)

  /** A layer-1 primary key: the record, and the designation or redshift method where the key has one. */
  datatype Key = Key(record: RecordId, rest: string)

  datatype Measurement = Measurement(value: real, error: real)

  datatype Row =
    | DesignationRow(design: string)
    | IcrsRow(ra: Measurement, dec: Measurement)
    | RedshiftRow(cz: real, eCz: Option<real>)
    | NatureRow(typeName: string)

  /** A weighted mean with its variance, the square of the error column; or a NaN, whose error column is zero. */
  datatype Estimate = Estimate(mean: real, variance: real) | NotANumber

  /** A layer-2 row without its PGC. */
  datatype Summary =
    | Voted(text: string)
    | Position(ra: Estimate, dec: Estimate)
    | Velocity(cz: Estimate)

  datatype PerCatalog<T> = PerCatalog(designation: T, icrs: T, redshift: T, nature: T) {
    function Get(c: Catalog): T {
      match c
      case Designation => designation
      case Icrs => icrs
      case Redshift => redshift
      case Nature => nature
    }

    function Set(c: Catalog, x: T): (r: PerCatalog<T>)
      ensures r.Get(c) == x
      ensures forall d | d != c :: r.Get(d) == Get(d)
    {
      match c
      case Designation => this.(designation := x)
      case Icrs => this.(icrs := x)
      case Redshift => this.(redshift := x)
      case Nature => this.(nature := x)
    }
  }

  lemma SamePerCatalog<T(!new)>(a: PerCatalog<T>, b: PerCatalog<T>)
    requires forall c: Catalog :: a.Get(c) == b.Get(c)
    ensures a == b
  {
    assert a.Get(Designation) == b.Get(Designation) && a.Get(Icrs) == b.Get(Icrs);
    assert a.Get(Redshift) == b.Get(Redshift) && a.Get(Nature) == b.Get(Nature);
  }

  /** The rows an aggregate is computed from: layer0.tables, layer0.records and the layer-1 catalogs. */
  datatype Content = Content(
    tables: map<TableName, DataType>,
    records: map<RecordId, Record>,
    layer1: PerCatalog<map<Key, Row>>)

  /** All tables: `pgcs` is common.pgc with its modification times, `nextPgc` its id sequence. */
  datatype State = State(
    content: Content,
    crossmatch: map<RecordId, Crossmatch>,
    pgcs: map<Pgc, Time>,
    nextPgc: int,
    layer2: PerCatalog<map<Pgc, Summary>>,
    lastUpdate: PerCatalog<Time>,
    clock: Time)

  predicate RowFits(c: Catalog, row: Row) {
    match c
    case Designation => row.DesignationRow?
    case Icrs => row.IcrsRow?
    case Redshift => row.RedshiftRow?
    case Nature => row.NatureRow?
  }

  /** Whether the catalog is averaged, and so reads its tables' datatypes, or voted. */
  predicate Measured(c: Catalog) {
    c.Icrs? || c.Redshift?
  }

  /** Exactly one of the three forms of crossmatch metadata: new, existing, collided. */
  predicate WellFormedMetadata(m: JsonObject) {
    || m == map[]
    || (m.Keys == {"pgc"} && m["pgc"].Number?)
    || (m.Keys == {"possible_matches"} && m["possible_matches"].Numbers? && |m["possible_matches"].items| >= 2)
  }

  /** Each row has its catalog's columns and belongs to a known record. */
  ghost predicate ValidTable(c: Catalog, table: map<Key, Row>, records: map<RecordId, Record>) {
    forall k | k in table :: k.record in records && RowFits(c, table[k])
  }

  ghost predicate ValidContent(db: Content) {
    && (forall r | r in db.records :: db.records[r].table in db.tables)
    && (forall c: Catalog :: ValidTable(c, db.layer1.Get(c), db.records))
  }

  /** Foreign keys, the metadata forms, and that no stored time is in the future. */
  ghost predicate Valid(st: State) {
    && ValidContent(st.content)
    && (forall r | r in st.content.records && st.content.records[r].pgc.Some? ::
          st.content.records[r].pgc.value in st.pgcs)
    && (forall r | r in st.crossmatch ::
          r in st.content.records && st.crossmatch[r].metadata.Some? && WellFormedMetadata(st.crossmatch[r].metadata.value))
    && (forall p | p in st.pgcs :: st.pgcs[p] < st.clock)
    && (forall c: Catalog :: st.lastUpdate.Get(c) < st.clock)
  }

  /** The migrated but empty database. */
  function Empty(): State {
    State(
      Content(map[], map[], PerCatalog(map[], map[], map[], map[])),
      map[], map[], 1,
      PerCatalog(map[], map[], map[], map[]),
      PerCatalog(0, 0, 0, 0), 1)
  }
}
