# Shipment adjustment: deviation arithmetic and pair settlement

This project models the numeric core of the `ajuste` library in Dafny. The
library reconciles what was sent (`enviou`) with what was received
(`recebeu`) for each product.

- **Deviation** (`Calculos`, `calculos.dfy`). `calcular_diferencas_basicas`
  turns one input row into a prepared record. The record holds:
  - the raw shortfall `falta` and the raw surplus `sobra`;
  - the current deviation `limites_atuais_%` in percent of what was sent;
  - `ajuste_%`, the part of that deviation above the admissible tolerance
    `limite_admissivel_%`, and `ajuste_qtd`, the same as a quantity;
  - the leftovers `sobra_disponivel` and `falta_necessaria`;
  - the priority key `pulmao`;
  - the three settlement columns `rod1..rod3`, which start at zero.

  `preparar_dataframe` creates any missing input column with zeros. It then
  prepares every row, in order, into the fixed fifteen-column layout. That
  layout is the field order of `Calculos.Record`.
- **Settlement** (`Redistribuicao`, `redistribuicao.dfy`).
  `calcular_rods_para_par` takes two records. A record with a surplus is the
  donor and a record with a shortfall is the receiver. The pair settles in
  three cumulative rounds:
  - N = min(receiver's `ajuste_qtd`, donor's surplus);
  - Q = N + |N − receiver's shortfall|;
  - T = Q + |N − receiver's shortfall|.

  Each round is quantised half-up to hundredths (`_q2`). The receiver gets
  the rounds with a plus sign and the donor with a minus sign. Both get
  `final_reajustado = recebeu + rod3` and `ajuste_total = rod3`. The pair
  comes back in input order.

  `parear_e_aplicar_rods` works on a whole table. It ranks the donors and
  the receivers separately: largest `pulmao` first, ties kept in table
  order. It pairs the k-th donor with the k-th receiver, settles each pair
  on the current table and writes the five settlement cells back. Finally it
  fills in the rows whose `final_reajustado` is NaN.

Modelling choices:
- `Decimal` arithmetic is exact `real` arithmetic.
- A table is a sequence of records. Row labels are positions.
- A missing or `None` input value is `None` of `Calculos.Option`.
- A settlement cell (`Redistribuicao.Slot`) is one of three things: the
  column does not exist yet, NaN, or a number.
- The steps that change a table in place are methods over local
  sequences:
  - `preparar_dataframe`'s loop over the expected columns is the method
    `FillMissingColumns`, whose loop invariant says which columns exist and
    hold zeros so far;
  - `parear_e_aplicar_rods`'s loop over the pairs is the method
    `ApplyPairs`, whose loop invariant carries the frame (only the five
    settlement columns change, rows outside any pair are untouched), the
    per-pair results and the zero totals of the rod columns;
  - the final NaN mask of `parear_e_aplicar_rods` has no loop in the source
    and is a map over the rows (`FillUnpaired`) inside `SettleRows`.

Details of the code the model keeps:
- An absent `produto` column is created holding the number 0, like every
  other absent column (`Calculos.Label` has a case for it).
- The prepared table has the fifteen columns of calculos.py:53-58, ending
  with `rod1..rod3`.
- `preparar_dataframe` on a table with no rows fails: the empty list of
  records makes a frame without columns, and selecting the fifteen columns
  raises `KeyError`. `PrepareTable` returns `None` exactly then.
- Only the first round is capped by the donor's surplus. The docstring's
  "N <= sobra_doador" does not extend to rod2 and rod3; see
  `LaterRoundsUncapped`.
- The first "no valid pair" guard of `calcular_rods_para_par` (line 44) is
  subsumed by its final `else` (lines 56-60). `AssignRoles` keeps both.
- An unpaired row of a freshly prepared table ends with
  `final_reajustado = 0.0`, not `recebeu`; see Findings.

## Model

| member | source | states |
|---|---|---|
| Calculos.Read | ajuste/calculos.py:15-17 | a missing or `None` value reads as 0, a present one as itself |
| Calculos.Falta | ajuste/calculos.py:20 | the shortfall is non-negative, positive exactly when more was sent than received, and then equals the difference |
| Calculos.Sobra | ajuste/calculos.py:21 | the surplus is non-negative, positive exactly when more was received than sent, and then equals the difference |
| Calculos.ComputeDeviation | ajuste/calculos.py:5-17 | `produto` kept; `enviou`, `recebeu` and the tolerance are the values read (missing or `None` as 0), and the record is determined by those four inputs alone |
| Calculos.Deviation | ajuste/calculos.py:18-44 | the input values kept; `falta`, `sobra` ≥ 0, never both positive, `falta − sobra = enviou − recebeu`; `pulmao = falta + sobra = abs(enviou − recebeu)`; `limites_atuais_%` is 0 when nothing was sent, otherwise `limites_atuais_% · enviou = 100 · pulmao`; `ajuste_%` is the excess over the tolerance clamped at 0; `100 · ajuste_qtd = ajuste_% · enviou`; the leftovers are the clamped differences; rods 0 |
| Calculos.AdjustmentNonNegative | ajuste/calculos.py:23-25 | with `enviou ≥ 0`, `ajuste_%` and `ajuste_qtd` are non-negative |
| Calculos.AdjustmentBounded | ajuste/calculos.py:23-25 | with `enviou > 0` and a non-negative tolerance, `ajuste_% ≤ limites_atuais_%` and `ajuste_qtd ≤ max(falta, sobra)` |
| Calculos.LeftoversBounded | ajuste/calculos.py:27-28 | with `ajuste_qtd ≥ 0`, `sobra_disponivel ≤ sobra` and `falta_necessaria ≤ falta` |
| Calculos.RecomputeIsStable | ajuste/calculos.py:5-44 | preparing a prepared record's own inputs again gives the same record |
| Calculos.ShortfallExample | tests/test_calculos.py:7-13 | 100 sent, 90 received, tolerance 0.20: `falta` 10, `sobra` 0, `limites_atuais_%` 10, `ajuste_%` 9.8, `ajuste_qtd` 9.8 |
| Calculos.SurplusExample | tests/test_calculos.py:8-14 | 100 sent, 120 received, tolerance 0.20: `sobra` 20, `falta` 0, `limites_atuais_%` 20, `ajuste_qtd` 19.8 |
| Calculos.FillColumn | ajuste/calculos.py:50 | a created column reads zero (`0` for `produto`) and the row's other fields are kept, i.e. the row filled in exactly that column |
| Calculos.FillMissingColumns | ajuste/calculos.py:47-50 | afterwards all four expected columns are present, the row count is kept, and exactly the absent columns hold zeros |
| Calculos.PrepareTable | ajuste/calculos.py:46-59 | no result (the `KeyError` of line 59) exactly when the table has no rows; otherwise one prepared record per input row, in order, each computed from that row's four expected fields with absent columns read as 0, and every record has shortfall and surplus exclusive |
| Redistribuicao.ExtractBasics | ajuste/redistribuicao.py:8-22 | D, E, M are `enviou`, `recebeu`, `ajuste_qtd`; F and G are re-derived from D and E, non-negative, never both positive, and `F − G = E − D` |
| Redistribuicao.BasicsOfPrepared | ajuste/redistribuicao.py:16-22 | on a prepared record the re-derived F and G equal its `sobra` and `falta` columns |
| Redistribuicao.Q2 | ajuste/redistribuicao.py:24-26 | the result is a whole number of hundredths and the nearest one to the input, a tie going away from zero |
| Redistribuicao.Q2Sign | ajuste/redistribuicao.py:24-26 | quantisation keeps the sign and commutes with negation |
| Redistribuicao.Q2Monotone | ajuste/redistribuicao.py:24-26 | quantisation is monotone |
| Redistribuicao.Q2Idempotent | ajuste/redistribuicao.py:24-26 | quantising twice is quantising once |
| Redistribuicao.AssignRoles | ajuste/redistribuicao.py:40-60 | a is the donor exactly when a has a surplus and b a shortfall; otherwise b is the donor exactly when b has a surplus and a a shortfall; otherwise there is no pair |
| Redistribuicao.CumulativeAmounts | ajuste/redistribuicao.py:65-69 | N is the smaller of the receiver's correction and the donor's surplus; rounds two and three each add abs(N − receiver's shortfall); N ≤ Q ≤ T; N ≥ 0 when both inputs are |
| Redistribuicao.Transfer | ajuste/redistribuicao.py:62-85 | donor and receiver keep their other columns and both get `final_reajustado = recebeu + rod3` and `ajuste_total = rod3`; the receiver's rods are the quantised N, Q, T and the donor's rods their negatives |
| Redistribuicao.Unpaired | ajuste/redistribuicao.py:45-47 | a row left out keeps its other columns and gets zero rods, `final_reajustado = recebeu` and `ajuste_total = 0` |
| Redistribuicao.SettlePair | ajuste/redistribuicao.py:28-91 | results in input order, each keeping its input's other columns; `ajuste_total = rod3` and `final_reajustado = recebeu + rod3` for both; each rod of one is the negative of the other's; the two final amounts sum to the two received amounts |
| Redistribuicao.NoPairSettlesNothing | ajuste/redistribuicao.py:43-60 | with no valid role split, both rows get zero rods, `final_reajustado = recebeu` and `ajuste_total = 0` |
| Redistribuicao.PairedRods | ajuste/redistribuicao.py:62-79 | in a valid pair, the donor has a surplus and the receiver a shortfall; the receiver's rods are the quantised N, Q, T and the donor's their negatives |
| Redistribuicao.RodsAreCents | ajuste/redistribuicao.py:71-79 | every rod of a settled pair is a whole number of hundredths |
| Redistribuicao.CentsNegate | ajuste/redistribuicao.py:78 | the donor's negated rods are whole hundredths too |
| Redistribuicao.RoundsCumulative | ajuste/redistribuicao.py:66-72 | with a non-negative receiver correction, `0 ≤ rod1 ≤ rod2 ≤ rod3` for the receiver and the mirror for the donor |
| Redistribuicao.FirstRoundCapped | ajuste/redistribuicao.py:65-66 | rod1 is the quantised minimum of the receiver's correction and the donor's surplus, so it is at most either one quantised |
| Redistribuicao.SettleUncappedRows | ajuste/redistribuicao.py:65-72 | any donor with surplus 1 and receiver with shortfall 10 and correction 9.8 settle with donor rods −1, −10, −19 |
| Redistribuicao.LaterRoundsUncapped | ajuste/redistribuicao.py:65-72 | donor surplus 1 and receiver shortfall 10 with correction 9.8 give rods 1, 10, 19, so rod3 exceeds the donor's surplus |
| Redistribuicao.PairExample | ajuste/redistribuicao.py:28-91 | rows A (100/90) and B (100/120) settle as A: 9.8, 10, 10.2, final 100.2 and B: −9.8, −10, −10.2, final 109.8 |
| Redistribuicao.SettleTestRows | ajuste/redistribuicao.py:28-91 | any two rows with the quantities of A and B settle to those rods and final amounts: B donates, N = 9.8, Q = 10, T = 10.2 |
| Redistribuicao.IndicesOn | ajuste/redistribuicao.py:104-105 | the positions of the donors (or receivers): exactly the rows with `sobra > 0` (or `falta > 0`), all in range |
| Redistribuicao.IndicesIncreasing | ajuste/redistribuicao.py:104-105 | those positions come in table order |
| Redistribuicao.InsertRanked | ajuste/redistribuicao.py:106-107 | inserting a position adds exactly that position |
| Redistribuicao.InsertRankedKeepsRank | ajuste/redistribuicao.py:106-107 | inserting a position later in the table than all others into a ranked list keeps it ranked |
| Redistribuicao.SortByPulmao | ajuste/redistribuicao.py:106-107 | the sorted list has the input's length and only positions in range |
| Redistribuicao.SortPermutes | ajuste/redistribuicao.py:106-107 | the sorted list is a permutation of its input |
| Redistribuicao.SortRanks | ajuste/redistribuicao.py:106-107 | sorting positions given in table order ranks them: larger `pulmao` first, equal `pulmao` in table order (a stable descending sort) |
| Redistribuicao.SortKeepsMembers | ajuste/redistribuicao.py:106-107 | sorting keeps exactly the positions it is given |
| Redistribuicao.Ranking | ajuste/redistribuicao.py:104-107 | the ranked list of one side has one entry per row of that side, all in range |
| Redistribuicao.RankingRanksSide | ajuste/redistribuicao.py:104-107 | the ranked list of one side holds exactly that side's rows, larger `pulmao` first and ties in table order |
| Redistribuicao.Zip | ajuste/redistribuicao.py:109 | `zip` pairs same-position entries, as many as the shorter list has |
| Redistribuicao.Pairs | ajuste/redistribuicao.py:104-109 | the number of pairs is the smaller of the number of donors and receivers; every position is in range |
| Redistribuicao.PairsJoinDonorsAndReceivers | ajuste/redistribuicao.py:104-112 | every pair joins a donor and a receiver, so the settlement always takes its a-is-donor branch |
| Redistribuicao.PairsRanked | ajuste/redistribuicao.py:106-109 | both columns of the pairing are in rank order |
| Redistribuicao.PairsCoverShorterSide | ajuste/redistribuicao.py:109 | every row of the smaller side is in some pair |
| Redistribuicao.RankedPrefixFirst | ajuste/redistribuicao.py:106-109 | in a ranked list, an entry missing from the first n ranks below each of those n |
| Redistribuicao.ZipTakesTopFirst | ajuste/redistribuicao.py:106-109 | zipping a ranked first list uses its top-ranked entries: any entry left out ranks below every entry used |
| Redistribuicao.ZipTakesTopSecond | ajuste/redistribuicao.py:106-109 | the same for a ranked second list |
| Redistribuicao.PairsTakeTopDonors | ajuste/redistribuicao.py:104-109 | the paired donors are the top-ranked ones: a donor left out ranks below every paired donor |
| Redistribuicao.PairsTakeTopReceivers | ajuste/redistribuicao.py:104-109 | the paired receivers are the top-ranked ones: a receiver left out ranks below every paired receiver |
| Redistribuicao.PairsSeparate | ajuste/redistribuicao.py:104-109 | when no row is both a donor and a receiver, no row appears twice in the pairing |
| Redistribuicao.WriteBack | ajuste/redistribuicao.py:113-118 | writing back a result that differs only in the settlement columns gives that result |
| Redistribuicao.Step | ajuste/redistribuicao.py:110-118 | one pass keeps the row count, and for two distinct rows each one ends up holding its settlement result |
| Redistribuicao.StepFrame | ajuste/redistribuicao.py:109-118 | one pass writes only the settlement columns of its two rows, and for distinct rows they become the pair's results |
| Redistribuicao.StepKeepsResults | ajuste/redistribuicao.py:109-118 | with no row in two places, one more pass leaves the rows of every pair so far holding that pair's results |
| Redistribuicao.StepSums | ajuste/redistribuicao.py:109-118 | one pass over two distinct rows without rods leaves every rod column total at 0 |
| Redistribuicao.ApplyPairs | ajuste/redistribuicao.py:109-118 | same row count; only settlement columns change; rows outside every pair are untouched; with no row in two places, each pair's rows are its settlement results, and rod totals that start at 0 stay 0 |
| Redistribuicao.SettlePairReadsRecords | ajuste/redistribuicao.py:110-112 | a pair's settlement does not depend on the settlement cells it is given |
| Redistribuicao.AddColumns | ajuste/redistribuicao.py:100-102 | as written: the records are kept, and a missing `final_reajustado` or `ajuste_total` column is created holding 0.0, an existing one kept |
| Redistribuicao.AddColumnsIntended | ajuste/redistribuicao.py:97-102 | corrected: the same, except that a created `final_reajustado` starts unsettled (NaN) |
| Redistribuicao.FillUnpaired | ajuste/redistribuicao.py:121-123 | a row whose `final_reajustado` is NaN gets `recebeu` there and `ajuste_total` 0; any other row is kept; no NaN is left |
| Redistribuicao.MaskKeepsPairs | ajuste/redistribuicao.py:109-123 | the NaN mask leaves every settled pair holding its settlement results |
| Redistribuicao.SettleRows | ajuste/redistribuicao.py:104-123 | the pairing and write-back followed by the NaN mask: unpaired rows only go through the mask, paired rows are their settlement results, rod totals stay 0 |
| Redistribuicao.SameRecordsSameSettlement | ajuste/redistribuicao.py:99-112 | creating the settlement columns changes neither the pairing nor any pair's settlement |
| Redistribuicao.CarrySettlement | ajuste/redistribuicao.py:99-112 | creating the settlement columns keeps the records, so each pair's settlement and the zero rod totals carry over to the original table |
| Redistribuicao.UnpairedAsWritten | ajuste/redistribuicao.py:100-123 | as written, an unpaired row keeps its records; `final_reajustado` is 0.0 where the column was created, `recebeu` where it was NaN, kept where it held a number; `ajuste_total` is 0.0 where it was created or the final was NaN, otherwise kept |
| Redistribuicao.UnpairedCorrected | ajuste/redistribuicao.py:93-124 | with the columns created as intended, an unpaired row without a settled value ends with `final_reajustado = recebeu` and `ajuste_total = 0`; one with a number keeps it |
| Redistribuicao.UnpairedRowsAsWritten | ajuste/redistribuicao.py:100-123 | as written, every row outside the pairing ends as `UnpairedAsWritten` describes |
| Redistribuicao.UnpairedRowsCorrected | ajuste/redistribuicao.py:93-124 | with the columns created as intended, every row outside the pairing ends as `UnpairedCorrected` describes |
| Redistribuicao.PairAndApply | ajuste/redistribuicao.py:93-124 | same row count; only settlement columns change; an unpaired row keeps its rods, its `final_reajustado` becomes `recebeu` only where it was NaN, 0.0 where the column was created, and its `ajuste_total` is 0.0 where it was created or the final was NaN; when no row has both a shortfall and a surplus, each pair is settled as by `calcular_rods_para_par`; under the same hypothesis, rod totals that start at 0 stay 0 |
| Redistribuicao.PairAndApplyCorrected | ajuste/redistribuicao.py:93-124 | as above, but every unpaired row without a settled value ends with `final_reajustado = recebeu` and `ajuste_total = 0`, as the docstring promises |
| Redistribuicao.NoReceiverNoPairs | ajuste/redistribuicao.py:104-109 | a table without any shortfall pairs no row |
| Redistribuicao.UnpairedRowZeroedAsWritten | ajuste/redistribuicao.py:100-123 | the prepared row B (100/120) alone is unpaired and, as written, ends with `final_reajustado` 0.0 rather than its 120 received, and `ajuste_total` 0.0 |
| Redistribuicao.AloneWithoutShortfall | ajuste/redistribuicao.py:100-123 | a fresh row without a shortfall, alone in its table, is unpaired and, as written, ends with `final_reajustado` and `ajuste_total` 0.0 |

## Left out

- `redistribuir_em_rodadas` (streamlit_app.py:5, tests/test_redistribuicao.py:3) and `linha_calc` (streamlit_app.py:4) are imported but defined nowhere in ajuste/, so there is nothing to model.
- streamlit_app.py (upload, widgets, CSV/XLSX input and output) and ajuste/__init__.py (re-exports only) are not part of this model.
- Conversions to `float` and the display rounding `round(…, 10)` are not modelled: every quantity is an exact real.
- `Decimal(str(x))` parsing and the 28-digit `Decimal` context are not modelled: division, sums and products are exact rather than rounded to 28 significant digits, and `quantize` in `_q2` (ajuste/redistribuicao.py:26) never raises `InvalidOperation` for a value that needs more than 28 digits.
- NaN or non-numeric input values are not modelled; inputs are numbers or missing. In the code, pandas stores a blank numeric cell as NaN, and `NaN or 0` stays NaN because NaN is truthy. `max` at ajuste/calculos.py:20 then compares `Decimal('NaN')`, which signals `InvalidOperation` (trapped by default). So a table with a blank numeric cell makes `preparar_dataframe` raise, where the model would read 0.
- Extra keys of an input row are not modelled: a row carries exactly the four expected fields.
- `_to_dec`'s `None` default is not a separate member: records always carry the columns it reads, so it is the identity on the model's reals.
- Calculos.ComputeDeviation: echoes the value read (`0` for a missing or `None` input), not the original `None`. Lines 48-50 create absent columns only. A `None` cell in a present column is kept by `**row` at ajuste/calculos.py:32, so there the prepared table holds `None`/NaN where the model holds 0.0.
- Calculos.FillMissingColumns: returns the filled table instead of adding the columns to the caller's frame, so the aliasing of `df_in` is not captured.
- Redistribuicao.SettlePair: returns new rows in the no-pair branches instead of updating the caller's dicts in place (`x.update`).
- Redistribuicao.SortByPulmao: a functional stable sort on a sequence, not `list.sort` in place.
- Redistribuicao.PairAndApply: assumes the `sobra`, `falta`, `pulmao` and rod columns exist (they do in every prepared table), and uses positions for pandas index labels.
- Redistribuicao.ApplyPairs: the per-pair results and the zero rod totals are stated only when no row is in two pairs; for a table with a row that is both a donor and a receiver (impossible for a prepared table) only the frame is stated.

## Findings

| source | as written | input that shows it | evidently intended | confidence | as-written member | corrected member |
|---|---|---|---|---|---|---|
| ajuste/redistribuicao.py:100-102 | a missing `final_reajustado` column is created holding 0.0, so the NaN mask at lines 121-123 never matches and unpaired rows keep 0.0 | a prepared table whose only row is B (100 sent, 120 received): B has no receiver, and ends with `final_reajustado` 0.0 and `ajuste_total` 0.0 | unpaired rows end with `final_reajustado = recebeu` and `ajuste_total = 0` (docstring, line 97), i.e. the fresh column starts as NaN | medium, not executed | Redistribuicao.UnpairedRowZeroedAsWritten | Redistribuicao.PairAndApplyCorrected |
