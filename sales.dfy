/** One line of the sales table and the column sums over a table. */
module Sales {

  /** A row of the sales DataFrame. `data` is the sale instant in seconds since
      1970-01-01T00:00:00; `receita` was produced as `valor * quantidade` when
      the table was generated; `mes` and `ano` are derived from `data`. */
  datatype Record = Record(
    data: int,
    valor: real,
    quantidade: nat,
    categoria: string,
    regiao: string,
    produto: string,
    receita: real,
    mes: string,
    ano: int)

  /** `dff['receita'].sum()` (0 for an empty table). */
  function TotalReceita(s: seq<Record>): real {
    if s == [] then 0.0 else s[0].receita + TotalReceita(s[1..])
  }

  /** `dff['quantidade'].sum()` (0 for an empty table). */
  function TotalQuantidade(s: seq<Record>): nat {
    if s == [] then 0 else s[0].quantidade + TotalQuantidade(s[1..])
  }

  lemma {:induction false} TotalsAppend(a: seq<Record>, b: seq<Record>)
    ensures TotalReceita(a + b) == TotalReceita(a) + TotalReceita(b)
    ensures TotalQuantidade(a + b) == TotalQuantidade(a) + TotalQuantidade(b)
  {
    if a == [] {
      assert a + b == b;
    } else {
      assert (a + b)[0] == a[0] && (a + b)[1..] == a[1..] + b;
      TotalsAppend(a[1..], b);
    }
  }

  /** Every generated sale has at least one unit; then any non-empty table sold something. */
  lemma {:induction false} PositiveQuantities(s: seq<Record>)
    requires forall i :: 0 <= i < |s| ==> s[i].quantidade >= 1
    ensures TotalQuantidade(s) >= |s|
  {
    if s != [] {
      PositiveQuantities(s[1..]);
    }
  }
}
