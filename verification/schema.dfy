/** Decisions taken from a source's column schema (the rows of
    `DESCRIBE SELECT * FROM read_parquet(url)`) in `gpq_downloader/utils.py`:
    which column holds geometry, whether a `bbox` struct column exists, how a
    stale source profile is reconciled with the live schema, and how each
    column is projected when the output is not GeoParquet. */
module Schema {
  import opened Common
  import opened Text

  /** One schema row: the column name and its declared type. */
  datatype Column = Column(name: string, colType: string)

  /** The `validation_results` dictionary handed from validation to the
      download worker. `None` stands for a missing key or a `None` value;
      the worker distinguishes the two only for `geometry_column`, whose
      absence triggers detection. */
  datatype Profile = Profile(
    schema: Option<seq<Column>>,
    hasBbox: Option<bool>,
    bboxColumn: Option<string>,
    geometryColumn: Option<string>)

  const DefaultGeometry: string := "geometry"

  // ---- Geometry-column detection (utils.py Worker.run) ----

  predicate IsGeometryType(c: Column) {
    var t := Upper(c.colType);
    Contains(t, "GEOMETRY") || Contains(t, "GEOGRAPHY")
  }

  predicate HasConventionalGeometryName(c: Column) {
    var n := Lower(c.name);
    n == "geom" || n == "the_geom" || n == "wkb_geometry"
  }

  /** The geometry column detected from a schema: the first column typed
      GEOMETRY/GEOGRAPHY, else the first conventionally named one (original
      case kept), else `geometry`. */
  function DetectGeometryColumn(schema: seq<Column>): (r: string)
    ensures r == DefaultGeometry || exists i :: 0 <= i < |schema| && schema[i].name == r
  {
    match FirstIndex(schema, IsGeometryType)
    case Some(i) => schema[i].name
    case None =>
      match FirstIndex(schema, HasConventionalGeometryName)
      case Some(j) => schema[j].name
      case None => DefaultGeometry
  }

  /** The first geometry-typed column wins, whatever the names of the
      columns before or after it. */
  lemma TypedColumnWins(schema: seq<Column>, i: nat)
    requires i < |schema| && IsGeometryType(schema[i])
    requires forall j :: 0 <= j < i ==> !IsGeometryType(schema[j])
    ensures DetectGeometryColumn(schema) == schema[i].name
  {
    var k := FirstIndex(schema, IsGeometryType);
    assert k == Some(i);
  }

  /** Without a geometry-typed column, the first conventionally named column
      is chosen, spelled as the schema spells it. */
  lemma NamedColumnIsFallback(schema: seq<Column>, i: nat)
    requires forall j :: 0 <= j < |schema| ==> !IsGeometryType(schema[j])
    requires i < |schema| && HasConventionalGeometryName(schema[i])
    requires forall j :: 0 <= j < i ==> !HasConventionalGeometryName(schema[j])
    ensures DetectGeometryColumn(schema) == schema[i].name
  {
    assert FirstIndex(schema, IsGeometryType).None?;
    assert FirstIndex(schema, HasConventionalGeometryName) == Some(i);
  }

  /** With neither kind of column the default name is kept. */
  lemma DefaultWhenNothingMatches(schema: seq<Column>)
    requires forall j :: 0 <= j < |schema| ==> !IsGeometryType(schema[j])
    requires forall j :: 0 <= j < |schema| ==> !HasConventionalGeometryName(schema[j])
    ensures DetectGeometryColumn(schema) == DefaultGeometry
  {
    assert FirstIndex(schema, IsGeometryType).None?;
    assert FirstIndex(schema, HasConventionalGeometryName).None?;
  }

  /** Detection runs only when the profile has no `geometry_column` key. */
  function WithGeometryColumn(p: Profile, schema: seq<Column>): (r: Profile)
    ensures r.schema == p.schema && r.hasBbox == p.hasBbox && r.bboxColumn == p.bboxColumn
    ensures r.geometryColumn.Some?
    ensures p.geometryColumn.Some? ==> r.geometryColumn == p.geometryColumn
    ensures p.geometryColumn.None? ==> r.geometryColumn == Some(DetectGeometryColumn(schema))
  {
    if p.geometryColumn.Some? then p
    else p.(geometryColumn := Some(DetectGeometryColumn(schema)))
  }

  // ---- The bbox struct column and reconciliation ----

  /** A column named `bbox` (any case) whose type mentions `struct` (any case). */
  predicate IsBboxStruct(c: Column) {
    Lower(c.name) == "bbox" && Contains(Lower(c.colType), "struct")
  }

  predicate HasBboxStruct(schema: seq<Column>) {
    exists i | 0 <= i < |schema| :: IsBboxStruct(schema[i])
  }

  /** The live schema disagrees with any bbox claim: it is non-empty and has
      no `bbox` struct column. */
  predicate SchemaDeniesBbox(p: Profile) {
    p.schema.Some? && |p.schema.value| > 0 && !HasBboxStruct(p.schema.value)
  }

  /** The worker's reconciliation of a profile with the schema it has just
      read: it can only clear the bbox claim, never make one. */
  function Reconcile(p: Profile): (r: Profile)
    ensures r.schema == p.schema && r.geometryColumn == p.geometryColumn
    ensures r.hasBbox == Some(true) ==> p.hasBbox == Some(true)
    ensures r.bboxColumn.Some? ==> r.bboxColumn == p.bboxColumn
    ensures SchemaDeniesBbox(p) ==> r.hasBbox == Some(false) && r.bboxColumn.None?
    ensures !SchemaDeniesBbox(p) ==> r == p
  {
    if SchemaDeniesBbox(p) then p.(hasBbox := Some(false), bboxColumn := None) else p
  }

  /** Reconciling twice changes nothing more, so a worker restarted with the
      dictionary an earlier run left behind takes the same decisions. */
  lemma ReconcileIdempotent(p: Profile)
    ensures Reconcile(Reconcile(p)) == Reconcile(p)
  {
  }

  /** After reconciliation against a non-empty schema, a surviving bbox
      column means the schema really has a `bbox` struct. */
  lemma SurvivingBboxColumnIsBacked(p: Profile)
    requires p.schema.Some? && |p.schema.value| > 0
    ensures Reconcile(p).bboxColumn.Some? ==> HasBboxStruct(p.schema.value)
  {
  }

  // ---- Projection rewrite (utils.py process_schema_columns) ----

  /** One entry of the rewritten SELECT list. */
  datatype Proj =
    | ToJson(name: string)          // TO_JSON("n") AS "n"
    | ArrayToString(name: string)   // array_to_string("n", ', ') AS "n"
    | CastInt(name: string)         // CAST("n" AS INTEGER) AS "n"
    | Plain(name: string)           // "n"

  predicate IsStructOrMap(t: string) {
    Contains(Upper(t), "STRUCT") || Contains(Upper(t), "MAP")
  }

  predicate IsArray(t: string) {
    Contains(t, "[]")
  }

  predicate IsUTinyInt(t: string) {
    Upper(t) == "UTINYINT"
  }

  function ProjectColumn(c: Column): Proj {
    if IsStructOrMap(c.colType) then ToJson(c.name)
    else if IsArray(c.colType) then ArrayToString(c.name)
    else if IsUTinyInt(c.colType) then CastInt(c.name)
    else Plain(c.name)
  }

  /** The rewritten SELECT list: one entry per schema row, in schema order,
      chosen by the priority struct/map, then array, then UTINYINT. */
  function ProcessSchemaColumns(schema: seq<Column>): (r: seq<Proj>)
    ensures |r| == |schema|
    ensures forall i :: 0 <= i < |schema| ==> r[i].name == schema[i].name
    ensures forall i :: 0 <= i < |schema| ==>
      (r[i].ToJson? <==> IsStructOrMap(schema[i].colType))
    ensures forall i :: 0 <= i < |schema| ==>
      (r[i].ArrayToString? <==> !IsStructOrMap(schema[i].colType) && IsArray(schema[i].colType))
    ensures forall i :: 0 <= i < |schema| ==>
      (r[i].CastInt? <==>
        !IsStructOrMap(schema[i].colType) && !IsArray(schema[i].colType) && IsUTinyInt(schema[i].colType))
  {
    if |schema| == 0 then []
    else [ProjectColumn(schema[0])] + ProcessSchemaColumns(schema[1..])
  }

  function Quote(name: string): string {
    "\"" + name + "\""
  }

  /** The SQL text of one SELECT-list entry. */
  function RenderProj(p: Proj): (r: string)
    ensures Contains(r, Quote(p.name))
    ensures p.Plain? ==> r == Quote(p.name)
    ensures !p.Plain? ==> EndsWith(r, " AS " + Quote(p.name))
  {
    var q := Quote(p.name);
    match p
    case ToJson(_) => AliasEnds("TO_JSON(" + q + ")", q); "TO_JSON(" + q + ")" + " AS " + q
    case ArrayToString(_) => AliasEnds("array_to_string(" + q + ", ', ')", q); "array_to_string(" + q + ", ', ')" + " AS " + q
    case CastInt(_) => AliasEnds("CAST(" + q + " AS INTEGER)", q); "CAST(" + q + " AS INTEGER)" + " AS " + q
    case Plain(_) => assert OccursAt(q, q, 0); q
  }

  /** `expr AS q` ends with the alias and mentions `q`. */
  lemma AliasEnds(expr: string, q: string)
    ensures EndsWith(expr + " AS " + q, " AS " + q)
    ensures Contains(expr + " AS " + q, q)
  {
    var r := expr + " AS " + q;
    assert r == expr + (" AS " + q);
    assert r[|r| - |" AS " + q|..] == " AS " + q;
    assert OccursAt(r, q, |r| - |q|);
  }

  lemma MapIsJson()
    ensures ProjectColumn(Column("tags", "MAP(VARCHAR, VARCHAR)")) == ToJson("tags")
  {
    assert OccursAt(Upper("MAP(VARCHAR, VARCHAR)"), "MAP", 0);
  }

  lemma VarcharArrayIsJoined()
    ensures ProjectColumn(Column("categories", "VARCHAR[]")) == ArrayToString("categories")
  {
    assert !IsStructOrMap("VARCHAR[]") by {
      assert |Upper("VARCHAR[]")| == 9;
      assert Upper("VARCHAR[]") == "VARCHAR[]";
      FirstCharAbsent("VARCHAR[]", "STRUCT");
      FirstCharAbsent("VARCHAR[]", "MAP");
    }
    assert OccursAt("VARCHAR[]", "[]", 7);
  }

  lemma UTinyIntIsWidened()
    ensures ProjectColumn(Column("small_num", "UTINYINT")) == CastInt("small_num")
  {
    assert !IsStructOrMap("UTINYINT") && !IsArray("UTINYINT") by {
      assert Upper("UTINYINT") == "UTINYINT";
      FirstCharAbsent("UTINYINT", "STRUCT");
      FirstCharAbsent("UTINYINT", "MAP");
      FirstCharAbsent("UTINYINT", "[]");
    }
  }

  lemma IntegerStaysPlain()
    ensures ProjectColumn(Column("id", "INTEGER")) == Plain("id")
  {
    assert !IsStructOrMap("INTEGER") && !IsArray("INTEGER") && !IsUTinyInt("INTEGER") by {
      assert Upper("INTEGER") == "INTEGER";
      FirstCharAbsent("INTEGER", "STRUCT");
      FirstCharAbsent("INTEGER", "MAP");
      FirstCharAbsent("INTEGER", "[]");
    }
  }

  /** The column types exercised by the projection test: a MAP and a STRUCT
      become JSON, `VARCHAR[]` is joined, UTINYINT is widened, and plain
      columns stay as they are. */
  lemma ProjectionExamples()
    ensures ProjectColumn(Column("tags", "MAP(VARCHAR, VARCHAR)")) == ToJson("tags")
    ensures ProjectColumn(Column("names", "STRUCT(primary VARCHAR)")) == ToJson("names")
    ensures ProjectColumn(Column("categories", "VARCHAR[]")) == ArrayToString("categories")
    ensures ProjectColumn(Column("small_num", "UTINYINT")) == CastInt("small_num")
    ensures ProjectColumn(Column("id", "INTEGER")) == Plain("id")
  {
    MapIsJson();
    assert OccursAt(Upper("STRUCT(primary VARCHAR)"), "STRUCT", 0);
    VarcharArrayIsJoined();
    UTinyIntIsWidened();
    IntegerStaysPlain();
  }
}
