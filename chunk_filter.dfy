/** `processar_chunk`: one chunk of an establishment file, read with no
    header and every cell as text, is renamed by position, filtered in two
    stages (region and registration status, then principal activity code)
    and projected onto the nine report fields. */
module ChunkFilter {
  import opened Common
  import opened Text
  import opened Seqs
  import opened RowFormat

  /** One line of an establishment file: its cells by position. */
  type Row = seq<Cell>

  /** A chunk as the reader hands it over: the number of columns of the
      frame and its rows. A row with fewer cells than the frame is padded
      with missing values. */
  datatype Chunk = Chunk(width: nat, rows: seq<Row>)

  // Positions of the columns the filter reads (the renaming map).
  const CnpjBaseCol := 0
  const CodFilialCol := 1
  const DvCol := 2
  const SitCadCol := 5
  const CnaeCol := 11
  const TipoLogradouroCol := 13
  const LogradouroCol := 14
  const NumEnderecoCol := 15
  const ComplementoCol := 16
  const BairroCol := 17
  const CepCol := 18
  const UfCol := 19
  const CodigoMunicipioCol := 20
  const Ddd1Col := 21
  const Telefone1Col := 22
  const Ddd2Col := 23
  const Telefone2Col := 24
  const Ddd3Col := 25
  const Telefone3Col := 26
  const EmailCol := 27

  const UfFiltrada := "MG"
  const SituacaoAtiva := "02"
  const CnaesContabilidade := ["6920601", "6920602", "7020400"]

  /** The cell at position `i`, missing when the row is short. */
  function At(row: Row, i: nat): Cell
  {
    if i < |row| then row[i] else None
  }

  /** `series.str.strip('"')`: a missing value stays missing. */
  function StripQuotesCell(c: Cell): Cell
  {
    match c
    case None => None
    case Some(t) => Some(StripQuotes(t))
  }

  /** Stage one, first half: the region cell is exactly "MG" (compared
      without stripping). */
  predicate InRegion(row: Row)
  {
    At(row, UfCol) == Some(UfFiltrada)
  }

  /** Stage one, second half: the registration status is "02" once its
      quotes are stripped. */
  predicate IsActive(row: Row)
  {
    StripQuotesCell(At(row, SitCadCol)) == Some(SituacaoAtiva)
  }

  predicate RegionAndStatus(row: Row)
  {
    InRegion(row) && IsActive(row)
  }

  /** Stage two: the quote-stripped principal activity code is one of the
      accepted codes. */
  predicate HasAcceptedCnae(row: Row)
  {
    match StripQuotesCell(At(row, CnaeCol))
    case None => false
    case Some(t) => t in CnaesContabilidade
  }

  /** A row the filter keeps. */
  predicate Survives(row: Row)
  {
    InRegion(row) && IsActive(row) && HasAcceptedCnae(row)
  }

  /** The rows left after both stages, in their original order. */
  function Survivors(rows: seq<Row>): seq<Row>
  {
    Filter(Filter(rows, RegionAndStatus), HasAcceptedCnae)
  }

  /** One row of the filtered table, fields in the projection order
      CNPJ, UF, cnae_principal, codigo_municipio, Endereco, email,
      Telefone1, Telefone2, Telefone3. */
  datatype Record = Record(cnpj: Cell, uf: Cell, cnae: Cell, codigoMunicipio: Cell,
                           endereco: string, email: Cell,
                           telefone1: string, telefone2: string, telefone3: string)

  /** Adding three text columns: missing when any part is missing. */
  function Concat3(a: Cell, b: Cell, c: Cell): Cell
  {
    if a.Some? && b.Some? && c.Some? then Some(a.value + b.value + c.value) else None
  }

  /** The CNPJ column: base, branch and check digits, each quote-stripped,
      joined with no separator. */
  function CnpjOf(row: Row): Cell
  {
    Concat3(StripQuotesCell(At(row, CnpjBaseCol)), StripQuotesCell(At(row, CodFilialCol)), StripQuotesCell(At(row, DvCol)))
  }

  /** The derived columns of a surviving row. */
  function Derive(row: Row): Record
  {
    Record(
      CnpjOf(row),
      At(row, UfCol),
      StripQuotesCell(At(row, CnaeCol)),
      At(row, CodigoMunicipioCol),
      BuildAddress(At(row, TipoLogradouroCol), At(row, LogradouroCol), At(row, NumEnderecoCol),
                   At(row, ComplementoCol), At(row, BairroCol), At(row, CepCol)),
      At(row, EmailCol),
      FormatPhone(At(row, Ddd1Col), At(row, Telefone1Col)),
      FormatPhone(At(row, Ddd2Col), At(row, Telefone2Col)),
      FormatPhone(At(row, Ddd3Col), At(row, Telefone3Col)))
  }

  function DeriveAll(rows: seq<Row>): (r: seq<Record>)
    ensures |r| == |rows| && forall k | 0 <= k < |rows| :: r[k] == Derive(rows[k])
  {
    seq(|rows|, k requires 0 <= k < |rows| => Derive(rows[k]))
  }

  /** What `processar_chunk` returns: no rows when the frame lacks the
      region column (and hence the activity column) or when nothing
      survives; a missing-column error when rows survive but the frame is
      too narrow for the projection (the email column, position 27, is the
      last one it selects); otherwise one record per survivor. */
  function ChunkResult(c: Chunk): Result<seq<Record>, Failure>
  {
    if c.width <= UfCol then Ok([])
    else
      var survivors := Survivors(c.rows);
      if survivors == [] then Ok([])
      else if c.width <= EmailCol then Err(MissingOutputColumn(c.width))
      else Ok(DeriveAll(survivors))
  }

  /** The two stages in sequence select exactly the rows that meet all
      three conditions, each row at most once and in order. */
  lemma SurvivorsSpec(rows: seq<Row>)
    ensures Survivors(rows) == Filter(rows, Survives)
    ensures forall row :: row in Survivors(rows) <==> row in rows && Survives(row)
  {
    FilterTwice(rows, RegionAndStatus, HasAcceptedCnae, Survives);
    FilterMembers(rows, Survives);
  }

  /** The chunk result's error and empty cases: an error exactly when the
      frame has the region column but not the email column and some row
      survives, and nothing for a frame without the region column. */
  lemma ChunkResultSpec(c: Chunk)
    ensures ChunkResult(c).Err? <==>
              UfCol < c.width <= EmailCol && exists row | row in c.rows :: Survives(row)
    ensures ChunkResult(c).Err? ==> ChunkResult(c).error == MissingOutputColumn(c.width)
    ensures c.width <= UfCol ==> ChunkResult(c) == Ok([])
  {
    SurvivorsSpec(c.rows);
    if c.width > UfCol && Survivors(c.rows) != [] {
      var row := Survivors(c.rows)[0];
      assert row in Survivors(c.rows);
    }
  }

  /** For a frame wide enough for the projection, the result is the record
      of every surviving row in input order: record `k` comes from the
      row at the `k`-th surviving position. */
  lemma ChunkRecords(c: Chunk)
    requires c.width > EmailCol
    ensures ChunkResult(c).Ok?
    ensures |ChunkResult(c).value| == |KeptFrom(c.rows, Survives, 0)|
    ensures forall k | 0 <= k < |KeptFrom(c.rows, Survives, 0)| ::
              ChunkResult(c).value[k] == Derive(c.rows[KeptFrom(c.rows, Survives, 0)[k]])
  {
    SurvivorsSpec(c.rows);
    FilterIsSubsequence(c.rows, Survives, 0);
    assert c.rows[0..] == c.rows;
  }

  /** The surviving positions are exactly the rows that meet all three
      conditions, in ascending order. */
  lemma SurvivorPositions(rows: seq<Row>)
    ensures Ascending(KeptFrom(rows, Survives, 0))
    ensures forall i | 0 <= i < |rows| :: Survives(rows[i]) <==> i in KeptFrom(rows, Survives, 0)
  {
    KeptFromSatisfy(rows, Survives, 0);
    KeptFromAscending(rows, Survives, 0);
    KeptFromComplete(rows, Survives, 0);
  }

  /** Every record of a kept row carries the target region, an accepted
      activity code and the municipality code and email of its row. */
  lemma SurvivorRecord(row: Row)
    requires Survives(row)
    ensures Derive(row).uf == Some(UfFiltrada)
    ensures Derive(row).cnae.Some? && Derive(row).cnae.value in CnaesContabilidade
    ensures Derive(row).codigoMunicipio == At(row, CodigoMunicipioCol)
    ensures Derive(row).email == At(row, EmailCol)
  {
  }

  /** The registry writes the CNPJ in three quoted digit parts (eight-digit
      base, four-digit branch, two check digits); the record's CNPJ is the
      fourteen digits joined with no separator. */
  lemma CnpjOfQuotedParts(row: Row, base: string, filial: string, dv: string, q: nat)
    requires AllDigits(base) && AllDigits(filial) && AllDigits(dv)
    requires At(row, CnpjBaseCol) == Some(Quotes(q) + base + Quotes(q))
    requires At(row, CodFilialCol) == Some(Quotes(q) + filial + Quotes(q))
    requires At(row, DvCol) == Some(Quotes(q) + dv + Quotes(q))
    requires |base| == 8 && |filial| == 4 && |dv| == 2
    ensures CnpjOf(row) == Some(base + filial + dv)
    ensures |CnpjOf(row).value| == 14 && AllDigits(CnpjOf(row).value)
  {
    StripQuotesOfQuoted(base, q, q);
    StripQuotesOfQuoted(filial, q, q);
    StripQuotesOfQuoted(dv, q, q);
  }

  /** A missing CNPJ part leaves the record's CNPJ missing. */
  lemma CnpjMissingPart(row: Row)
    requires At(row, CnpjBaseCol).None? || At(row, CodFilialCol).None? || At(row, DvCol).None?
    ensures CnpjOf(row).None?
  {
  }

  /** `processar_chunk(chunk)`, stage by stage as the function runs it:
      the column check, the region and status mask, the activity-code
      mask, then the derived columns row by row (`apply` along the rows)
      and the projection. */
  method ProcessChunk(c: Chunk) returns (res: Result<seq<Record>, Failure>)
    ensures res == ChunkResult(c)
  {
    if c.width <= UfCol {
      return Ok([]);
    }
    var stage1 := Filter(c.rows, RegionAndStatus);
    if stage1 == [] {
      return Ok([]);
    }
    var stage2 := Filter(stage1, HasAcceptedCnae);
    if stage2 == [] {
      return Ok([]);
    }
    if c.width <= EmailCol {
      return Err(MissingOutputColumn(c.width));
    }
    var out := Apply(stage2, Derive);
    assert out == DeriveAll(stage2);
    return Ok(out);
  }
}
