/** Deriving the period columns of the sales table (utils/data_processor.py). */
module DataProcessor {
  import opened Wrappers
  import opened Text
  import opened Periods
  import opened Sales
  import opened GroupBy
  import opened Analytics

  /** One row after `process_data`: `mes` is the "YYYY-MM" period of `data` and `ano` its year;
      every other column is kept. */
  function Derive(r: Record): (d: Record)
    ensures ParseMonthLabel(d.mes) == Some((d.ano, MonthOf(d.data)))
    ensures d.ano == YearOf(r.data)
    ensures d.data == r.data && d.valor == r.valor && d.quantidade == r.quantidade
    ensures d.categoria == r.categoria && d.regiao == r.regiao && d.produto == r.produto
    ensures d.receita == r.receita
  {
    r.(mes := PeriodLabel(r.data), ano := YearOf(r.data))
  }

  /** For the years pandas can represent, `mes` is four year digits, a hyphen and two month digits. */
  lemma DeriveMesFormat(r: Record)
    requires 0 <= YearOf(r.data) <= 9999
    ensures var m := Derive(r).mes;
      |m| == 7 && AllDigits(m[..4]) && m[4] == '-' && AllDigits(m[5..])
    ensures ParseYearText(Derive(r).mes[..4]) == Some(Derive(r).ano)
  {
    PeriodLabelFormat(r.data);
    var m := Derive(r).mes;
    assert m[..|m| - 3] == m[..4];
  }

  /** The table `process_data` leaves behind: same rows, same order, derived columns filled in. */
  function ProcessRecords(s: seq<Record>): (t: seq<Record>)
    ensures |t| == |s|
    ensures forall i :: 0 <= i < |s| ==> t[i] == Derive(s[i])
  {
    seq(|s|, i requires 0 <= i < |s| => Derive(s[i]))
  }

  /** Processing a processed row changes nothing. */
  lemma DeriveIdempotent(r: Record)
    ensures Derive(Derive(r)) == Derive(r)
  {
  }

  lemma ProcessRecordsIdempotent(s: seq<Record>)
    ensures ProcessRecords(ProcessRecords(s)) == ProcessRecords(s)
  {
    forall i | 0 <= i < |s| ensures ProcessRecords(ProcessRecords(s))[i] == ProcessRecords(s)[i] {
      DeriveIdempotent(s[i]);
    }
  }

  /** The derived columns leave every revenue total unchanged. */
  lemma {:induction false} ProcessKeepsTotals(s: seq<Record>)
    ensures TotalReceita(ProcessRecords(s)) == TotalReceita(s)
    ensures TotalQuantidade(ProcessRecords(s)) == TotalQuantidade(s)
  {
    if s != [] {
      assert ProcessRecords(s)[1..] == ProcessRecords(s[1..]);
      ProcessKeepsTotals(s[1..]);
    }
  }

  function MesOf(r: Record): string {
    r.mes
  }

  /** On a processed table, grouping by the stored `mes` column gives the monthly evolution view. */
  lemma EvolutionMatchesMes(s: seq<Record>)
    ensures GroupByString(ProcessRecords(s), MesOf) == GetSalesEvolution(ProcessRecords(s))
  {
    var t := ProcessRecords(s);
    Orders.StrLessIsStrictTotalOrder();
    GroupSumSameKeys(t, MesOf, MonthKey, Orders.StrLess);
  }

  /** One step of the loop below: deriving row i extends the processed prefix by that row. */
  lemma ProcessStep(before: seq<Record>, i: nat, current: seq<Record>, next: seq<Record>)
    requires i < |before|
    requires current == ProcessRecords(before[..i]) + before[i..]
    requires next == current[i := Derive(current[i])]
    ensures next == ProcessRecords(before[..i + 1]) + before[i + 1..]
  {
    assert current[i] == before[i];
    var lhs := ProcessRecords(before[..i + 1]) + before[i + 1..];
    assert |next| == |lhs|;
    forall j | 0 <= j < |next| ensures next[j] == lhs[j] {
      if j < i {
        assert next[j] == current[j] == ProcessRecords(before[..i])[j] == Derive(before[j]);
        assert lhs[j] == ProcessRecords(before[..i + 1])[j] == Derive(before[j]);
      } else if j == i {
        assert lhs[j] == ProcessRecords(before[..i + 1])[i] == Derive(before[i]);
      } else {
        assert next[j] == current[j] == before[i..][j - i] == before[j];
        assert lhs[j] == before[i + 1..][j - i - 1] == before[j];
      }
    }
  }

  /** `process_data(df)`: fills `mes` and `ano` of every row in place and returns the same table. */
  method ProcessData(df: array<Record>) returns (out: array<Record>)
    modifies df
    ensures out == df
    ensures df[..] == ProcessRecords(old(df[..]))
  {
    ghost var before := df[..];
    var i := 0;
    while i < df.Length
      invariant 0 <= i <= df.Length
      invariant df[..] == ProcessRecords(before[..i]) + before[i..]
    {
      ghost var current := df[..];
      df[i] := Derive(df[i]);
      ProcessStep(before, i, current, df[..]);
      i := i + 1;
    }
    assert before[..i] == before;
    out := df;
  }
}
