/** Enrichment: the municipality table (its first two columns renamed to
    `codigo_municipio` and `municipio`) is left-joined to the filtered
    table on the municipality code, and the result is projected onto the
    nine report columns, the name taking the place of the code. */
module Enrich {
  import opened Common
  import opened Seqs
  import opened ChunkFilter

  /** A line of the municipality table: code and name. */
  datatype LookupRow = LookupRow(code: Cell, name: Cell)

  /** The municipality table after the renaming: the first column is the
      code and the second the name; a table with fewer than two columns
      has no second column to rename, which raises. */
  function LoadLookup(width: nat, rows: seq<Row>): (r: Result<seq<LookupRow>, Failure>)
    ensures r.Err? <==> width < 2
    ensures r.Err? ==> r.error == LookupTooNarrow(width)
    ensures r.Ok? ==> |r.value| == |rows|
                      && forall k | 0 <= k < |rows| :: r.value[k].code == At(rows[k], 0) && r.value[k].name == At(rows[k], 1)
  {
    if width < 2 then Err(LookupTooNarrow(width))
    else Ok(seq(|rows|, k requires 0 <= k < |rows| => LookupRow(At(rows[k], 0), At(rows[k], 1))))
  }

  /** A line of the report, in the final column order CNPJ, UF, municipio,
      cnae_principal, Endereco, email, Telefone1, Telefone2, Telefone3. */
  datatype ReportRow = ReportRow(cnpj: Cell, uf: Cell, municipio: Cell, cnae: Cell,
                                 endereco: string, email: Cell,
                                 telefone1: string, telefone2: string, telefone3: string)

  /** The final projection of a joined line. */
  function Project(r: Record, municipio: Cell): ReportRow
  {
    ReportRow(r.cnpj, r.uf, municipio, r.cnae, r.endereco, r.email, r.telefone1, r.telefone2, r.telefone3)
  }

  /** The names of the lookup lines whose code equals `code`, in table
      order. Keys are compared as they are, a missing code matching a
      missing code. */
  function NamesFor(lookup: seq<LookupRow>, code: Cell): (r: seq<Cell>)
    ensures |r| <= |lookup|
  {
    if lookup == [] then []
    else (if lookup[0].code == code then [lookup[0].name] else []) + NamesFor(lookup[1..], code)
  }

  /** The joined lines of one record: one per matching lookup line, or
      one with a missing name when nothing matches. */
  function JoinRecord(r: Record, lookup: seq<LookupRow>): seq<ReportRow>
  {
    var names := NamesFor(lookup, r.codigoMunicipio);
    if names == [] then [Project(r, None)]
    else seq(|names|, k requires 0 <= k < |names| => Project(r, names[k]))
  }

  /** `merge(how="left")` followed by the column selection: the joined
      lines of each record, records in table order. */
  function LeftJoin(table: seq<Record>, lookup: seq<LookupRow>): seq<ReportRow>
  {
    FlatMap(table, (r: Record) => JoinRecord(r, lookup))
  }

  /** A name is returned exactly when some lookup line with that code
      carries it. */
  lemma {:induction false} NamesForMembers(lookup: seq<LookupRow>, code: Cell)
    ensures forall n :: n in NamesFor(lookup, code) <==> exists l | l in lookup :: l.code == code && l.name == n
  {
    if lookup != [] {
      NamesForMembers(lookup[1..], code);
      assert lookup == [lookup[0]] + lookup[1..];
      forall n | (exists l | l in lookup :: l.code == code && l.name == n)
        ensures n in NamesFor(lookup, code)
      {
        var l :| l in lookup && l.code == code && l.name == n;
        if l != lookup[0] {
          assert l in lookup[1..];
        }
      }
    }
  }

  /** Every record gives at least one joined line, each carrying the
      record's fields; no line has a name that the lookup does not give
      for the record's code. */
  lemma JoinRecordSpec(r: Record, lookup: seq<LookupRow>)
    ensures |JoinRecord(r, lookup)| >= 1
    ensures forall line | line in JoinRecord(r, lookup) ::
              && line.cnpj == r.cnpj && line.uf == r.uf && line.cnae == r.cnae
              && line.endereco == r.endereco && line.email == r.email
              && line.telefone1 == r.telefone1 && line.telefone2 == r.telefone2 && line.telefone3 == r.telefone3
              && (line.municipio == None || line.municipio in NamesFor(lookup, r.codigoMunicipio))
    ensures NamesFor(lookup, r.codigoMunicipio) == [] ==> JoinRecord(r, lookup) == [Project(r, None)]
  {
  }

  /** The join of a concatenation is the concatenation of the joins: the
      records keep their order. */
  lemma LeftJoinAppend(a: seq<Record>, b: seq<Record>, lookup: seq<LookupRow>)
    ensures LeftJoin(a + b, lookup) == LeftJoin(a, lookup) + LeftJoin(b, lookup)
  {
    FlatMapAppend(a, b, (r: Record) => JoinRecord(r, lookup));
  }

  /** No record is lost: the joined table has at least as many lines as
      the filtered table. */
  lemma {:induction false} LeftJoinTotal(table: seq<Record>, lookup: seq<LookupRow>)
    ensures |LeftJoin(table, lookup)| >= |table|
  {
    if table != [] {
      LeftJoinTotal(table[..|table| - 1], lookup);
      JoinRecordSpec(table[|table| - 1], lookup);
    }
  }

  /** No two lookup lines share a code. */
  predicate UniqueCodes(lookup: seq<LookupRow>)
  {
    forall i, j | 0 <= i < j < |lookup| :: lookup[i].code != lookup[j].code
  }

  /** The name the report shows for a code: the first match, or missing. */
  function MunicipioOf(lookup: seq<LookupRow>, code: Cell): Cell
  {
    var names := NamesFor(lookup, code);
    if names == [] then None else names[0]
  }

  /** With unique codes, a code has the name of its one line, or no name. */
  lemma {:induction false} NamesForUnique(lookup: seq<LookupRow>, code: Cell)
    requires UniqueCodes(lookup)
    ensures (exists i | 0 <= i < |lookup| :: lookup[i].code == code) ==>
              exists i | 0 <= i < |lookup| :: lookup[i].code == code && NamesFor(lookup, code) == [lookup[i].name]
    ensures (forall i | 0 <= i < |lookup| :: lookup[i].code != code) ==> NamesFor(lookup, code) == []
  {
    if lookup != [] {
      var tail := lookup[1..];
      UniqueTail(lookup);
      NamesForUnique(tail, code);
      if lookup[0].code == code {
        assert NamesFor(lookup, code) == [lookup[0].name];
      } else if exists i | 0 <= i < |lookup| :: lookup[i].code == code {
        var i :| 0 <= i < |lookup| && lookup[i].code == code;
        assert tail[i - 1] == lookup[i];
        var i' :| 0 <= i' < |tail| && tail[i'].code == code && NamesFor(tail, code) == [tail[i'].name];
        assert lookup[i' + 1] == tail[i'];
      } else {
        assert forall i | 0 <= i < |tail| :: tail[i].code != code by {
          forall i | 0 <= i < |tail| ensures tail[i].code != code {
            assert tail[i] == lookup[i + 1];
          }
        }
      }
    }
  }

  /** The tail of a table with unique codes has unique codes, none of them
      the code of the head. */
  lemma UniqueTail(lookup: seq<LookupRow>)
    requires UniqueCodes(lookup) && lookup != []
    ensures UniqueCodes(lookup[1..])
    ensures forall i | 0 <= i < |lookup| - 1 :: lookup[1..][i].code != lookup[0].code
  {
    var tail := lookup[1..];
    forall i, j | 0 <= i < j < |tail| ensures tail[i].code != tail[j].code {
      assert tail[i] == lookup[i + 1] && tail[j] == lookup[j + 1];
    }
    forall i | 0 <= i < |tail| ensures tail[i].code != lookup[0].code {
      assert tail[i] == lookup[i + 1];
    }
  }

  /** With unique codes the join keeps the row count: line `k` is record
      `k` with the name of its code, or a missing name. */
  lemma {:induction false} LeftJoinUnique(table: seq<Record>, lookup: seq<LookupRow>)
    requires UniqueCodes(lookup)
    ensures |LeftJoin(table, lookup)| == |table|
    ensures forall k | 0 <= k < |table| ::
              LeftJoin(table, lookup)[k] == Project(table[k], MunicipioOf(lookup, table[k].codigoMunicipio))
  {
    if table != [] {
      var n := |table| - 1;
      var r := table[n];
      LeftJoinUnique(table[..n], lookup);
      NamesForUnique(lookup, r.codigoMunicipio);
      assert |JoinRecord(r, lookup)| == 1;
    }
  }

  /** No two raw municipality lines share the code in column 0. */
  predicate DistinctRawCodes(rows: seq<Row>)
  {
    forall i, j | 0 <= i < j < |rows| :: At(rows[i], 0) != At(rows[j], 0)
  }

  /** The municipality table as read, joined: with at least two columns and
      distinct codes in column 0, each record keeps one line, whose name is
      column 1 of the raw line whose column 0 equals the record's code, and
      is missing when no line has that code. */
  lemma JoinOnLoadedLookup(table: seq<Record>, width: nat, rows: seq<Row>)
    requires width >= 2 && DistinctRawCodes(rows)
    ensures LoadLookup(width, rows).Ok?
    ensures |LeftJoin(table, LoadLookup(width, rows).value)| == |table|
    ensures forall k, i | 0 <= k < |table| && 0 <= i < |rows| && At(rows[i], 0) == table[k].codigoMunicipio ::
              LeftJoin(table, LoadLookup(width, rows).value)[k] == Project(table[k], At(rows[i], 1))
    ensures forall k | 0 <= k < |table| && (forall i | 0 <= i < |rows| :: At(rows[i], 0) != table[k].codigoMunicipio) ::
              LeftJoin(table, LoadLookup(width, rows).value)[k] == Project(table[k], None)
  {
    var lookup := LoadLookup(width, rows).value;
    assert UniqueCodes(lookup) by {
      forall i, j | 0 <= i < j < |lookup| ensures lookup[i].code != lookup[j].code {
        assert lookup[i].code == At(rows[i], 0) && lookup[j].code == At(rows[j], 0);
      }
    }
    LeftJoinUnique(table, lookup);
    forall k, i | 0 <= k < |table| && 0 <= i < |rows| && At(rows[i], 0) == table[k].codigoMunicipio
      ensures LeftJoin(table, lookup)[k] == Project(table[k], At(rows[i], 1))
    {
      var code := table[k].codigoMunicipio;
      NamesForUnique(lookup, code);
      assert lookup[i].code == code;
      var i' :| 0 <= i' < |lookup| && lookup[i'].code == code && NamesFor(lookup, code) == [lookup[i'].name];
      assert i' == i;
    }
    forall k | 0 <= k < |table| && (forall i | 0 <= i < |rows| :: At(rows[i], 0) != table[k].codigoMunicipio)
      ensures LeftJoin(table, lookup)[k] == Project(table[k], None)
    {
      NamesForUnique(lookup, table[k].codigoMunicipio);
    }
  }

  /** With an empty municipality table every line has a missing name. */
  lemma {:induction false} LeftJoinNoLookup(table: seq<Record>)
    ensures LeftJoin(table, []) == seq(|table|, k requires 0 <= k < |table| => Project(table[k], None))
  {
    if table != [] {
      LeftJoinNoLookup(table[..|table| - 1]);
    }
  }
}
