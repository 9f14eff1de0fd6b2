/** The whole run: order the establishment files, load the municipality
    table, filter every chunk of every file in that order, join the
    municipality names and cut the report into sheets. */
module Pipeline {
  import opened Common
  import opened Seqs
  import opened Sources
  import opened ChunkFilter
  import opened Aggregation
  import opened Enrich
  import opened Export

  /** The chunks of each file, in the given file order. */
  function FilesOf(ordered: seq<string>, contents: map<string, seq<Chunk>>): (r: seq<seq<Chunk>>)
    requires forall p | p in ordered :: p in contents
    ensures |r| == |ordered| && forall k | 0 <= k < |ordered| :: r[k] == contents[ordered[k]]
  {
    seq(|ordered|, k requires 0 <= k < |ordered| => contents[ordered[k]])
  }

  /** The sheets the run writes, or the failure that stops it before
      anything is written. A file listed in `paths` reads as the chunks
      `contents` holds for it; the municipality table has `lookupWidth`
      columns and the lines `lookupRows` after its header. */
  function Report(paths: seq<string>, contents: map<string, seq<Chunk>>,
                  lookupWidth: nat, lookupRows: seq<Row>): Result<seq<Sheet>, Failure>
    requires forall p | p in paths :: p in contents
  {
    match OrderSources(paths)
    case Err(e) => Err(e)
    case Ok(ordered) =>
      OrderedFromInput(paths);
      match LoadLookup(lookupWidth, lookupRows)
      case Err(e) => Err(e)
      case Ok(lookup) =>
        match Aggregated(FilesOf(ordered, contents))
        case Err(e) => Err(e)
        case Ok(table) => Ok(Sheets(LeftJoin(table, lookup), MaxLinhasPorAba))
  }

  /** A finished run writes every joined line exactly once and in order,
      across sheets named `Parte_1`, `Parte_2`, ..., each holding between
      one line and the row limit. */
  lemma ReportSpec(paths: seq<string>, contents: map<string, seq<Chunk>>,
                   lookupWidth: nat, lookupRows: seq<Row>)
    requires forall p | p in paths :: p in contents
    requires Report(paths, contents, lookupWidth, lookupRows).Ok?
    ensures OrderSources(paths).Ok? && LoadLookup(lookupWidth, lookupRows).Ok?
    ensures forall p | p in OrderSources(paths).value :: p in contents
    ensures var files := FilesOf(OrderSources(paths).value, contents);
            var sheets := Report(paths, contents, lookupWidth, lookupRows).value;
            && Aggregated(files).Ok?
            && AllRows(sheets) == LeftJoin(Aggregated(files).value, LoadLookup(lookupWidth, lookupRows).value)
            && forall i | 0 <= i < |sheets| :: sheets[i].name == SheetName(i) && 0 < |sheets[i].rows| <= MaxLinhasPorAba
  {
    OrderedFromInput(paths);
    var files := FilesOf(OrderSources(paths).value, contents);
    var table := LeftJoin(Aggregated(files).value, LoadLookup(lookupWidth, lookupRows).value);
    SheetsCoverTable(table, MaxLinhasPorAba);
    forall i | 0 <= i < |Sheets(table, MaxLinhasPorAba)|
      ensures 0 < |Sheets(table, MaxLinhasPorAba)[i].rows| <= MaxLinhasPorAba
    {
      PageSpec(table, MaxLinhasPorAba, i);
    }
  }

  /** When no row survives anywhere, a finished run writes no sheet at
      all. */
  lemma NoSurvivorNoSheet(paths: seq<string>, contents: map<string, seq<Chunk>>,
                          lookupWidth: nat, lookupRows: seq<Row>)
    requires forall p | p in paths :: p in contents
    requires Report(paths, contents, lookupWidth, lookupRows).Ok?
    requires forall p, c | p in contents && c in contents[p] :: Survivors(c.rows) == []
    ensures Report(paths, contents, lookupWidth, lookupRows).value == []
  {
    OrderedFromInput(paths);
    var files := FilesOf(OrderSources(paths).value, contents);
    forall c: Chunk | c in Flatten(files) ensures Survivors(c.rows) == [] {
      FlattenMember(files, c);
    }
    NothingSurvives(files);
    SheetCountSpec(0, MaxLinhasPorAba);
  }

  /** The top-level script: each step in source order, stopping at the
      first failure. */
  method Run(paths: seq<string>, contents: map<string, seq<Chunk>>,
             lookupWidth: nat, lookupRows: seq<Row>) returns (res: Result<seq<Sheet>, Failure>)
    requires forall p | p in paths :: p in contents
    ensures res == Report(paths, contents, lookupWidth, lookupRows)
  {
    var estabelecimentos := OrderSources(paths);
    if estabelecimentos.Err? {
      return Err(estabelecimentos.error);
    }
    OrderedFromInput(paths);
    var municipios := LoadLookup(lookupWidth, lookupRows);
    if municipios.Err? {
      return Err(municipios.error);
    }
    var filtrado := Aggregate(FilesOf(estabelecimentos.value, contents));
    if filtrado.Err? {
      return Err(filtrado.error);
    }
    var dfFinal := LeftJoin(filtrado.value, municipios.value);
    var sheets := Paginate(dfFinal, MaxLinhasPorAba);
    return Ok(sheets);
  }
}
