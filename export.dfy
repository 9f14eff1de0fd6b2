/** Export: the report is cut into pages of at most `MaxLinhasPorAba`
    lines, one sheet per page, named `Parte_1`, `Parte_2`, ... in order. */
module Export {
  import opened Text
  import opened Seqs
  import opened Enrich

  /** The row limit of one sheet. */
  const MaxLinhasPorAba := 1_000_000

  /** `num_abas`: whole pages, plus one for a remainder. */
  function SheetCount(total: nat, max: nat): nat
    requires max > 0
  {
    total / max + (if total % max != 0 then 1 else 0)
  }

  /** The page count is the ceiling of `total / max`: the pages before the
      last do not reach the end of the table and all of them together do;
      an empty table has no page. */
  lemma SheetCountSpec(total: nat, max: nat)
    requires max > 0
    ensures var n := SheetCount(total, max);
            && total <= n * max
            && (n > 0 ==> (n - 1) * max < total)
            && (n == 0 <==> total == 0)
  {
    var q, r := total / max, total % max;
    assert total == q * max + r;
    if r != 0 {
      assert (q + 1) * max == q * max + max;
    }
  }

  /** `df.iloc[inicio:fim]`: positions past the end are cut off. */
  function Slice<T>(t: seq<T>, lo: nat, hi: nat): seq<T>
  {
    var hi' := if hi <= |t| then hi else |t|;
    var lo' := if lo <= hi' then lo else hi';
    t[lo'..hi']
  }

  /** The lines of page `i`. */
  function Page(table: seq<ReportRow>, max: nat, i: nat): seq<ReportRow>
  {
    Slice(table, i * max, i * max + max)
  }

  /** `f"Parte_{i+1}"` */
  function SheetName(i: nat): string
  {
    "Parte_" + NatToString(i + 1)
  }

  datatype Sheet = Sheet(name: string, rows: seq<ReportRow>)

  /** The sheets the export writes, in order. */
  function Sheets(table: seq<ReportRow>, max: nat): (r: seq<Sheet>)
    requires max > 0
  {
    seq(SheetCount(|table|, max), i requires 0 <= i => Sheet(SheetName(i), Page(table, max, i)))
  }

  /** The lines of all sheets, in sheet order. */
  function AllRows(sheets: seq<Sheet>): seq<ReportRow>
  {
    if sheets == [] then [] else AllRows(sheets[..|sheets| - 1]) + sheets[|sheets| - 1].rows
  }

  /** Page `i` of a sheet that is written: lines `i * max` up to
      `(i + 1) * max` or the end, never empty, and full unless it is the
      last. */
  lemma PageSpec(table: seq<ReportRow>, max: nat, i: nat)
    requires max > 0 && i < SheetCount(|table|, max)
    ensures i * max < |table|
    ensures (i + 1) * max <= |table| ==> Page(table, max, i) == table[i * max .. (i + 1) * max]
    ensures (i + 1) * max > |table| ==> Page(table, max, i) == table[i * max ..]
    ensures 0 < |Page(table, max, i)| <= max
    ensures i + 1 < SheetCount(|table|, max) ==> |Page(table, max, i)| == max
  {
    var n := SheetCount(|table|, max);
    SheetCountSpec(|table|, max);
    assert i * max <= (n - 1) * max by { MulMono(i, n - 1, max); }
    if i + 1 < n {
      assert (i + 1) * max <= (n - 1) * max by { MulMono(i + 1, n - 1, max); }
    }
    assert (i + 1) * max == i * max + max;
  }

  lemma MulMono(a: nat, b: nat, m: nat)
    requires a <= b
    ensures a * m <= b * m
  {
  }

  function Min(a: nat, b: nat): nat
  {
    if a <= b then a else b
  }

  /** The sheets hold the whole table, in order, each line once. */
  lemma SheetsCoverTable(table: seq<ReportRow>, max: nat)
    requires max > 0
    ensures AllRows(Sheets(table, max)) == table
  {
    var n := SheetCount(|table|, max);
    SheetCountSpec(|table|, max);
    PrefixCovered(table, max, n);
    assert Sheets(table, max)[..n] == Sheets(table, max);
    assert table[..Min(n * max, |table|)] == table;
  }

  /** The first `k` sheets hold the table up to line `k * max`. */
  lemma {:induction false} PrefixCovered(table: seq<ReportRow>, max: nat, k: nat)
    requires max > 0 && k <= SheetCount(|table|, max)
    ensures AllRows(Sheets(table, max)[..k]) == table[..Min(k * max, |table|)]
  {
    if k > 0 {
      var lo := (k - 1) * max;
      MulSucc(k - 1, max);
      PrefixCovered(table, max, k - 1);
      AllRowsSnoc(Sheets(table, max), k);
      SliceExtends(table, lo, lo + max);
    }
  }

  lemma AllRowsSnoc(sheets: seq<Sheet>, k: nat)
    requires 0 < k <= |sheets|
    ensures AllRows(sheets[..k]) == AllRows(sheets[..k - 1]) + sheets[k - 1].rows
  {
    assert sheets[..k][..k - 1] == sheets[..k - 1];
  }

  /** A slice continues the prefix that ends where it starts. */
  lemma SliceExtends<T>(t: seq<T>, lo: nat, hi: nat)
    requires lo <= hi
    ensures t[..Min(lo, |t|)] + Slice(t, lo, hi) == t[..Min(hi, |t|)]
  {
  }

  lemma MulSucc(a: nat, m: nat)
    ensures (a + 1) * m == a * m + m
  {
  }

  /** Distinct pages have distinct sheet names. */
  lemma SheetNamesDistinct(i: nat, j: nat)
    requires i != j
    ensures SheetName(i) != SheetName(j)
  {
    NatToStringInjective(i + 1, j + 1);
    assert SheetName(i)[6..] == NatToString(i + 1);
    assert SheetName(j)[6..] == NatToString(j + 1);
  }

  /** The export loop: for each page, the slice from `inicio` to `fim`
      becomes the sheet `Parte_{i+1}`. */
  method Paginate(table: seq<ReportRow>, max: nat) returns (sheets: seq<Sheet>)
    requires max > 0
    ensures sheets == Sheets(table, max)
  {
    var totalLinhas := |table|;
    var numAbas := SheetCount(totalLinhas, max);
    sheets := [];
    var i := 0;
    ghost var all := Sheets(table, max);
    assert |all| == numAbas;
    while i < numAbas
      invariant 0 <= i <= numAbas
      invariant sheets == all[..i]
    {
      var inicio := i * max;
      var fim := inicio + max;
      var subset := Slice(table, inicio, fim);
      assert sheets + [Sheet(SheetName(i), subset)] == all[..i + 1] by {
        TakeSnoc(all, i);
      }
      sheets := sheets + [Sheet(SheetName(i), subset)];
      i := i + 1;
    }
    assert all[..i] == all;
  }
}
