/** Per-record deviation arithmetic of the shipment-adjustment library
    (ajuste/calculos.py): from what was sent (`enviou`), what was received
    (`recebeu`) and the admissible tolerance in percentage points, derive the
    shortfall (`falta`), the surplus (`sobra`), the tolerance-adjusted
    correction (`ajuste_qtd`) and the priority key (`pulmao`); then apply that
    to every row of a table.

    The source computes in `Decimal`; the model uses exact `real` arithmetic. */
module Calculos {

  datatype Option<T> = None | Some(value: T)

  function Max(x: real, y: real): real { if x >= y then x else y }

  function Min(x: real, y: real): real { if x <= y then x else y }

  function Abs(x: real): real { if x >= 0.0 then x else -x }

  /** The product label, never used in computation. `Zero` is the number 0
      that fills an absent `produto` column. */
  datatype Label = Name(s: string) | Zero

  /** One input row. `None` stands for a missing key or a Python `None`. */
  datatype RawRow = RawRow(produto: Label, enviou: Option<real>, recebeu: Option<real>, limite: Option<real>)

  /** `row.get(k, 0) or 0`: a missing or `None` value reads as 0. */
  function Read(x: Option<real>): (v: real)
    ensures x.Some? ==> v == x.value
    ensures x.None? ==> v == 0.0
  {
    match x
    case None => 0.0
    case Some(w) => w
  }

  /** Raw shortfall: how much less was received than sent. */
  function Falta(enviou: real, recebeu: real): (f: real)
    ensures f >= 0.0
    ensures f > 0.0 <==> enviou > recebeu
    ensures f > 0.0 ==> f == enviou - recebeu
  {
    Max(enviou - recebeu, 0.0)
  }

  /** Raw surplus: how much more was received than sent. */
  function Sobra(enviou: real, recebeu: real): (s: real)
    ensures s >= 0.0
    ensures s > 0.0 <==> recebeu > enviou
    ensures s > 0.0 ==> s == recebeu - enviou
  {
    Max(recebeu - enviou, 0.0)
  }

  /** A prepared row: the fifteen columns of the prepared table, in the
      table's fixed column order. */
  datatype Record = Record(
    produto: Label, enviou: real, recebeu: real, limite: real,
    falta: real, sobra: real, limitesAtuais: real, ajustePct: real, ajusteQtd: real,
    sobraDisponivel: real, faltaNecessaria: real, pulmao: real,
    rod1: real, rod2: real, rod3: real)

  /** Shortfall and surplus are never both positive. */
  predicate Exclusive(r: Record)
  {
    !(r.falta > 0.0 && r.sobra > 0.0)
  }

  /** `calcular_diferencas_basicas`: the three numeric inputs are read
      (missing or `None` as 0) and the record is derived from them. */
  function ComputeDeviation(row: RawRow): (r: Record)
    // the input fields are kept (missing ones read as 0)
    ensures r.produto == row.produto
    ensures r.enviou == Read(row.enviou) && r.recebeu == Read(row.recebeu) && r.limite == Read(row.limite)
    // every other column is determined by those four
    ensures r == Deviation(r.produto, r.enviou, r.recebeu, r.limite)
  {
    Deviation(row.produto, Read(row.enviou), Read(row.recebeu), Read(row.limite))
  }

  /** Lines 20-43 of `calcular_diferencas_basicas`, on the values read. */
  function Deviation(produto: Label, enviou: real, recebeu: real, lim: real): (r: Record)
    // the inputs are kept
    ensures r.produto == produto && r.enviou == enviou && r.recebeu == recebeu && r.limite == lim
    // falta and sobra split the signed difference into its two non-negative parts
    ensures r.falta >= 0.0 && r.sobra >= 0.0 && Exclusive(r)
    ensures r.falta - r.sobra == enviou - recebeu
    // the priority key is the absolute gap
    ensures r.pulmao == r.falta + r.sobra == Abs(enviou - recebeu)
    // current deviation in percent of what was sent; 0 when nothing was sent
    ensures enviou == 0.0 ==> r.limitesAtuais == 0.0
    ensures enviou != 0.0 ==> r.limitesAtuais * enviou == 100.0 * r.pulmao
    // the excess over the tolerance, clamped at 0
    ensures r.ajustePct >= 0.0 && r.ajustePct >= r.limitesAtuais - lim
    ensures r.ajustePct == 0.0 || r.ajustePct == r.limitesAtuais - lim
    // the excess as a quantity
    ensures 100.0 * r.ajusteQtd == r.ajustePct * enviou
    // what is left of the surplus / shortfall once the correction is taken out
    ensures r.sobraDisponivel >= 0.0 && r.sobraDisponivel >= r.sobra - r.ajusteQtd
    ensures r.sobraDisponivel == 0.0 || r.sobraDisponivel == r.sobra - r.ajusteQtd
    ensures r.faltaNecessaria >= 0.0 && r.faltaNecessaria >= r.falta - r.ajusteQtd
    ensures r.faltaNecessaria == 0.0 || r.faltaNecessaria == r.falta - r.ajusteQtd
    // the settlement columns start at zero
    ensures r.rod1 == 0.0 && r.rod2 == 0.0 && r.rod3 == 0.0
  {
    var faltaBruta := Falta(enviou, recebeu);
    var sobraBruta := Sobra(enviou, recebeu);
    var atuaisPct := if enviou == 0.0 then 0.0 else (Max(faltaBruta, sobraBruta) / enviou) * 100.0;
    var ajustePct := Max(atuaisPct - lim, 0.0);
    var ajusteQtd := (ajustePct * enviou) / 100.0;
    Record(produto, enviou, recebeu, lim,
           faltaBruta, sobraBruta, atuaisPct, ajustePct, ajusteQtd,
           Max(sobraBruta - ajusteQtd, 0.0), Max(faltaBruta - ajusteQtd, 0.0),
           Abs(enviou - recebeu),
           0.0, 0.0, 0.0)
  }

  /** With nothing negative sent, the correction is never negative. */
  lemma AdjustmentNonNegative(row: RawRow)
    requires Read(row.enviou) >= 0.0
    ensures ComputeDeviation(row).ajustePct >= 0.0
    ensures ComputeDeviation(row).ajusteQtd >= 0.0
  {
    var r := ComputeDeviation(row);
    assert r.ajusteQtd == r.ajustePct * r.enviou / 100.0;
  }

  /** With something sent and a non-negative tolerance, the correction never
      exceeds the current deviation, in percent and in quantity. */
  lemma AdjustmentBounded(row: RawRow)
    requires Read(row.enviou) > 0.0 && Read(row.limite) >= 0.0
    ensures ComputeDeviation(row).ajustePct <= ComputeDeviation(row).limitesAtuais
    ensures ComputeDeviation(row).ajusteQtd <= Max(ComputeDeviation(row).falta, ComputeDeviation(row).sobra)
  {
    var r := ComputeDeviation(row);
    var e := r.enviou;
    assert Max(r.falta, r.sobra) == r.pulmao;
    assert r.limitesAtuais >= 0.0 by {
      assert r.limitesAtuais == r.pulmao / e * 100.0;
    }
    assert r.ajustePct <= r.limitesAtuais;
    var gap := r.limitesAtuais - r.ajustePct;
    assert gap * e >= 0.0;
    var scaledPct, scaledCurrent := r.ajustePct * e, r.limitesAtuais * e;
    assert scaledCurrent - scaledPct == gap * e;
    assert 100.0 * r.ajusteQtd == scaledPct && scaledCurrent == 100.0 * r.pulmao;
  }

  /** With a non-negative correction, what is left of the surplus (shortfall)
      is at most the surplus (shortfall). */
  lemma LeftoversBounded(row: RawRow)
    requires ComputeDeviation(row).ajusteQtd >= 0.0
    ensures ComputeDeviation(row).sobraDisponivel <= ComputeDeviation(row).sobra
    ensures ComputeDeviation(row).faltaNecessaria <= ComputeDeviation(row).falta
  {
  }

  /** Preparing an already prepared row again gives the same row. */
  lemma RecomputeIsStable(row: RawRow)
    ensures var r := ComputeDeviation(row);
            ComputeDeviation(RawRow(r.produto, Some(r.enviou), Some(r.recebeu), Some(r.limite))) == r
  {
    var r := ComputeDeviation(row);
    assert ComputeDeviation(RawRow(r.produto, Some(r.enviou), Some(r.recebeu), Some(r.limite))) ==
           Deviation(r.produto, r.enviou, r.recebeu, r.limite);
  }

  /** The first row of the library's own table test: 100 sent, 90 received,
      tolerance 0.20 percentage points. */
  lemma ShortfallExample()
    ensures var r := ComputeDeviation(RawRow(Name("A"), Some(100.0), Some(90.0), Some(0.20)));
            r.falta == 10.0 && r.sobra == 0.0 && r.limitesAtuais == 10.0 && r.ajustePct == 9.8 && r.ajusteQtd == 9.8
  {
  }

  /** The second row of the same test: 100 sent, 120 received. */
  lemma SurplusExample()
    ensures var r := ComputeDeviation(RawRow(Name("B"), Some(100.0), Some(120.0), Some(0.20)));
            r.sobra == 20.0 && r.falta == 0.0 && r.limitesAtuais == 20.0 && r.ajusteQtd == 19.8
  {
  }

  // ---------------------------------------------------------------------
  // The table

  /** The four expected input columns. */
  datatype Column = Produto | Enviou | Recebeu | Limite

  const Expected: seq<Column> := [Produto, Enviou, Recebeu, Limite]

  /** An input table: the columns it has, and its rows. A field of a row
      whose column is absent carries no meaning. */
  datatype RawTable = RawTable(present: set<Column>, rows: seq<RawRow>)

  /** The value a freshly created column `c` holds. */
  function FillColumn(row: RawRow, c: Column): (r: RawRow)
    // column `c` now reads zero and the other three fields are kept
    ensures r == FilledRow(row, {c})
  {
    match c
    case Produto => row.(produto := Zero)
    case Enviou => row.(enviou := Some(0.0))
    case Recebeu => row.(recebeu := Some(0.0))
    case Limite => row.(limite := Some(0.0))
  }

  /** A row once every column in `filled` has been created with zeros. */
  function FilledRow(row: RawRow, filled: set<Column>): RawRow
  {
    RawRow(if Produto in filled then Zero else row.produto,
           if Enviou in filled then Some(0.0) else row.enviou,
           if Recebeu in filled then Some(0.0) else row.recebeu,
           if Limite in filled then Some(0.0) else row.limite)
  }

  /** Lines 47-50 of `preparar_dataframe`: every expected column that is
      absent is created, holding zeros. */
  method FillMissingColumns(t: RawTable) returns (u: RawTable)
    ensures u.present == t.present + {Produto, Enviou, Recebeu, Limite}
    ensures |u.rows| == |t.rows|
    ensures forall i :: 0 <= i < |t.rows| ==> u.rows[i] == FilledRow(t.rows[i], {Produto, Enviou, Recebeu, Limite} - t.present)
  {
    u := t;
    for k := 0 to |Expected|
      invariant u.present == t.present + (set m | 0 <= m < k :: Expected[m])
      invariant |u.rows| == |t.rows|
      invariant forall i :: 0 <= i < |t.rows| ==>
        u.rows[i] == FilledRow(t.rows[i], (set m | 0 <= m < k :: Expected[m]) - t.present)
    {
      var c := Expected[k];
      ghost var done := set m | 0 <= m < k :: Expected[m];
      assert (set m | 0 <= m < k + 1 :: Expected[m]) == done + {c};
      if c !in u.present {
        u := u.(present := u.present + {c},
                rows := seq(|u.rows|, i requires 0 <= i < |u.rows| => FillColumn(u.rows[i], c)));
      }
    }
    assert (set m | 0 <= m < 4 :: Expected[m]) == {Produto, Enviou, Recebeu, Limite} by {
      assert Expected[0] == Produto && Expected[1] == Enviou && Expected[2] == Recebeu && Expected[3] == Limite;
    }
  }

  /** `preparar_dataframe`: one prepared row per input row, in order. A
      table without rows fails (`None`): the list of prepared rows is empty,
      the frame built from it has no columns, and selecting the fixed column
      order from it raises `KeyError`. */
  method PrepareTable(t: RawTable) returns (out: Option<seq<Record>>)
    ensures out.None? <==> |t.rows| == 0
    ensures out.Some? ==> |out.value| == |t.rows|
    ensures out.Some? ==> forall i :: 0 <= i < |out.value| ==>
      out.value[i] == ComputeDeviation(FilledRow(t.rows[i], {Produto, Enviou, Recebeu, Limite} - t.present))
    // an absent column reads as zero; a present one as its own value
    ensures out.Some? ==> forall i :: 0 <= i < |out.value| ==>
      out.value[i].produto == (if Produto in t.present then t.rows[i].produto else Zero) &&
      out.value[i].enviou == (if Enviou in t.present then Read(t.rows[i].enviou) else 0.0) &&
      out.value[i].recebeu == (if Recebeu in t.present then Read(t.rows[i].recebeu) else 0.0) &&
      out.value[i].limite == (if Limite in t.present then Read(t.rows[i].limite) else 0.0)
    ensures out.Some? ==> forall i :: 0 <= i < |out.value| ==> Exclusive(out.value[i])
  {
    var filled := FillMissingColumns(t);
    var recs := seq(|filled.rows|, i requires 0 <= i < |filled.rows| => ComputeDeviation(filled.rows[i]));
    if recs == [] {
      out := None;
    } else {
      out := Some(recs);
    }
  }
}
