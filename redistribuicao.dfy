/** Pair settlement and greedy pairing of the shipment-adjustment library
    (ajuste/redistribuicao.py): a record with a surplus (the donor) settles
    with a record with a shortfall (the receiver) in three cumulative rounds
    `rod1`, `rod2`, `rod3`, each quantised half-up to two decimals; over a
    whole table, donors and receivers are each ranked by `pulmao` and paired
    positionally. */
module Redistribuicao {
  import opened Calculos

  // ---------------------------------------------------------------------
  // Rows of the settlement table

  /** A cell of `final_reajustado` or `ajuste_total`: the column may not exist
      yet, or the cell holds pandas' NaN, or a number. */
  datatype Slot = Absent | NaN | Num(v: real)

  /** A row of the table being settled: a prepared record (whose rod columns
      are updated) and the two settlement columns. */
  datatype Row = Row(rec: Record, finalReajustado: Slot, ajusteTotal: Slot)

  /** The two rows agree on every column except the five settlement columns
      `rod1`, `rod2`, `rod3`, `final_reajustado` and `ajuste_total`. */
  predicate SameExceptSettlement(x: Row, y: Row)
  {
    x.rec.(rod1 := 0.0, rod2 := 0.0, rod3 := 0.0) == y.rec.(rod1 := 0.0, rod2 := 0.0, rod3 := 0.0)
  }

  /** The settlement columns are consistent: `ajuste_total` is `rod3` and
      `final_reajustado` is what was received plus `ajuste_total`. */
  predicate Settled(x: Row)
  {
    x.ajusteTotal == Num(x.rec.rod3) && x.finalReajustado == Num(x.rec.recebeu + x.rec.rod3)
  }

  // ---------------------------------------------------------------------
  // Quantities of one record

  /** `_extrair_basicos`: D = enviou, E = recebeu, F = raw surplus,
      G = raw shortfall (both re-derived from D and E, not read from the
      `sobra` and `falta` columns), M = ajuste_qtd. */
  datatype Basics = Basics(d: real, e: real, f: real, g: real, m: real)

  function ExtractBasics(r: Record): (b: Basics)
    ensures b.d == r.enviou && b.e == r.recebeu && b.m == r.ajusteQtd
    ensures b.f >= 0.0 && b.g >= 0.0 && !(b.f > 0.0 && b.g > 0.0)
    ensures b.f - b.g == b.e - b.d
  {
    Basics(r.enviou, r.recebeu, Sobra(r.enviou, r.recebeu), Falta(r.enviou, r.recebeu), r.ajusteQtd)
  }

  /** For a prepared record, re-deriving F and G gives back its `sobra` and
      `falta` columns. */
  lemma BasicsOfPrepared(row: RawRow)
    ensures var r := ComputeDeviation(row);
            ExtractBasics(r).f == r.sobra && ExtractBasics(r).g == r.falta
  {
    var r := ComputeDeviation(row);
    var b := ExtractBasics(r);
    assert b.f - b.g == r.sobra - r.falta;
  }

  // ---------------------------------------------------------------------
  // Quantisation

  /** Whole hundredths. */
  predicate IsCents(q: real)
  {
    (100.0 * q).Floor as real == 100.0 * q
  }

  /** `_q2`: quantise to two decimals, rounding half away from zero
      (`ROUND_HALF_UP` of `Decimal`). */
  function Q2(v: real): (q: real)
    ensures IsCents(q)
    // q is the nearest hundredth, a tie going away from zero
    ensures v >= 0.0 ==> q - 0.005 <= v < q + 0.005
    ensures v < 0.0 ==> q - 0.005 < v <= q + 0.005
  {
    var k := if v >= 0.0 then (100.0 * v + 0.5).Floor else -(-100.0 * v + 0.5).Floor;
    assert 100.0 * (k as real / 100.0) == k as real;
    k as real / 100.0
  }

  lemma Q2Sign(v: real)
    ensures v >= 0.0 ==> Q2(v) >= 0.0
    ensures v <= 0.0 ==> Q2(v) <= 0.0
    ensures Q2(-v) == -Q2(v)
  {
  }

  lemma Q2Monotone(v: real, w: real)
    requires v <= w
    ensures Q2(v) <= Q2(w)
  {
    if v >= 0.0 {
      assert (100.0 * v + 0.5).Floor <= (100.0 * w + 0.5).Floor;
    } else if w < 0.0 {
      assert (-100.0 * w + 0.5).Floor <= (-100.0 * v + 0.5).Floor;
    } else {
      Q2Sign(v);
      Q2Sign(w);
    }
  }

  lemma Q2Idempotent(v: real)
    ensures Q2(Q2(v)) == Q2(v)
  {
    var q := Q2(v);
    var k := (100.0 * q).Floor;
    assert 100.0 * q == k as real;
    if q >= 0.0 {
      assert (100.0 * q + 0.5).Floor == k;
    } else {
      assert (-100.0 * q + 0.5).Floor == -k;
    }
  }

  // ---------------------------------------------------------------------
  // Settling one pair

  /** Who gives in a pair. */
  datatype Pairing = NoPair | ADonates | BDonates

  /** Lines 40-60 of `calcular_rods_para_par`. The first guard (both without
      surplus, or both without shortfall) is subsumed by the last branch. */
  function AssignRoles(a: Record, b: Record): (roles: Pairing)
    ensures roles == ADonates <==> a.sobra > 0.0 && b.falta > 0.0
    ensures roles == BDonates <==> b.sobra > 0.0 && a.falta > 0.0 && !(a.sobra > 0.0 && b.falta > 0.0)
  {
    var aF, bF := Max(a.sobra, 0.0), Max(b.sobra, 0.0);
    var aG, bG := Max(a.falta, 0.0), Max(b.falta, 0.0);
    if (aF == 0.0 && bF == 0.0) || (aG == 0.0 && bG == 0.0) then NoPair
    else if aF > 0.0 && bG > 0.0 then ADonates
    else if bF > 0.0 && aG > 0.0 then BDonates
    else NoPair
  }

  /** The cumulative amounts before rounding. */
  datatype Amounts = Amounts(n: real, q: real, t: real)

  /** N = min(M_receiver, F_donor), O12 = |N - G_receiver|, Q = N + O12,
      T = Q + O12. */
  function CumulativeAmounts(donor: Basics, receiver: Basics): (a: Amounts)
    // the first round is the receiver's correction capped by the donor's surplus
    ensures a.n <= donor.f && a.n <= receiver.m && (a.n == donor.f || a.n == receiver.m)
    // rounds two and three each add the receiver's residual gap after round one
    ensures a.q - a.n == a.t - a.q == Abs(a.n - receiver.g)
    ensures a.n <= a.q <= a.t
    ensures receiver.m >= 0.0 && donor.f >= 0.0 ==> 0.0 <= a.n
  {
    var n := Min(receiver.m, donor.f);
    var o12 := Abs(n - receiver.g);
    var q := n + o12;
    Amounts(n, q, q + o12)
  }

  /** The rods of a settled pair from the donor's and receiver's rows;
      the result is (donor's row, receiver's row). */
  function Transfer(donor: Row, receiver: Row): (res: (Row, Row))
    ensures SameExceptSettlement(res.0, donor) && SameExceptSettlement(res.1, receiver)
    ensures Settled(res.0) && Settled(res.1)
    // the donor gives up exactly what the receiver gets, round by round
    ensures res.0.rec.rod1 == -res.1.rec.rod1 && res.0.rec.rod2 == -res.1.rec.rod2 && res.0.rec.rod3 == -res.1.rec.rod3
    // the receiver's rounds are the quantised cumulative amounts
    ensures var am := CumulativeAmounts(ExtractBasics(donor.rec), ExtractBasics(receiver.rec));
            res.1.rec.rod1 == Q2(am.n) && res.1.rec.rod2 == Q2(am.q) && res.1.rec.rod3 == Q2(am.t)
  {
    var am := CumulativeAmounts(ExtractBasics(donor.rec), ExtractBasics(receiver.rec));
    var nq, qq, tq := Q2(am.n), Q2(am.q), Q2(am.t);
    (donor.(rec := donor.rec.(rod1 := -nq, rod2 := -qq, rod3 := -tq),
            finalReajustado := Num(donor.rec.recebeu - tq), ajusteTotal := Num(-tq)),
     receiver.(rec := receiver.rec.(rod1 := nq, rod2 := qq, rod3 := tq),
               finalReajustado := Num(receiver.rec.recebeu + tq), ajusteTotal := Num(tq)))
  }

  /** A row left out of settlement: no rods, nothing adjusted. */
  function Unpaired(x: Row): (r: Row)
    ensures SameExceptSettlement(r, x) && Settled(r)
    ensures r.rec.rod1 == 0.0 && r.rec.rod2 == 0.0 && r.rec.rod3 == 0.0
    ensures r.finalReajustado == Num(x.rec.recebeu) && r.ajusteTotal == Num(0.0)
  {
    x.(rec := x.rec.(rod1 := 0.0, rod2 := 0.0, rod3 := 0.0),
       finalReajustado := Num(x.rec.recebeu), ajusteTotal := Num(0.0))
  }

  /** `calcular_rods_para_par`: the pair's results, in the order a, b. */
  function SettlePair(a: Row, b: Row): (res: (Row, Row))
    // each result keeps its own input's other columns
    ensures SameExceptSettlement(res.0, a) && SameExceptSettlement(res.1, b)
    ensures Settled(res.0) && Settled(res.1)
    // mirror: what one gains, the other loses, round by round
    ensures forall c :: Rod(res.0.rec, c) == -Rod(res.1.rec, c)
    // conservation: the total received by the two is unchanged
    ensures res.0.rec.recebeu + res.0.rec.rod3 + res.1.rec.recebeu + res.1.rec.rod3 == a.rec.recebeu + b.rec.recebeu
  {
    match AssignRoles(a.rec, b.rec)
    case NoPair => (Unpaired(a), Unpaired(b))
    case ADonates => Transfer(a, b)
    case BDonates =>
      var (d, r) := Transfer(b, a);
      (r, d)
  }

  /** With no valid donor/receiver split, both records come back with no
      rods, `final_reajustado` equal to what was received and no adjustment. */
  lemma NoPairSettlesNothing(a: Row, b: Row)
    requires AssignRoles(a.rec, b.rec) == NoPair
    ensures var res := SettlePair(a, b);
            res.0 == Unpaired(a) && res.1 == Unpaired(b) &&
            (forall c :: Rod(res.0.rec, c) == 0.0 && Rod(res.1.rec, c) == 0.0) &&
            res.0.finalReajustado == Num(a.rec.recebeu) && res.1.finalReajustado == Num(b.rec.recebeu)
  {
  }

  /** The donor and the receiver of a valid pair, in that order. */
  function Parties(a: Row, b: Row): (Row, Row)
  {
    if AssignRoles(a.rec, b.rec) == BDonates then (b, a) else (a, b)
  }

  /** The settlement results of the donor and the receiver, in that order. */
  function RoleResults(a: Row, b: Row): (Row, Row)
  {
    var res := SettlePair(a, b);
    if AssignRoles(a.rec, b.rec) == BDonates then (res.1, res.0) else res
  }

  /** In a valid pair the receiver gets the three quantised cumulative amounts
      and the donor their negatives. */
  lemma PairedRods(a: Row, b: Row)
    requires AssignRoles(a.rec, b.rec) != NoPair
    ensures var (donor, receiver) := Parties(a, b);
            var (d, r) := RoleResults(a, b);
            var am := CumulativeAmounts(ExtractBasics(donor.rec), ExtractBasics(receiver.rec));
            donor.rec.sobra > 0.0 && receiver.rec.falta > 0.0 &&
            r.rec.rod1 == Q2(am.n) && r.rec.rod2 == Q2(am.q) && r.rec.rod3 == Q2(am.t) &&
            d.rec.rod1 == -Q2(am.n) && d.rec.rod2 == -Q2(am.q) && d.rec.rod3 == -Q2(am.t)
  {
  }

  /** Every rod is a whole number of hundredths. */
  lemma RodsAreCents(a: Row, b: Row)
    ensures forall c :: IsCents(Rod(SettlePair(a, b).0.rec, c)) && IsCents(Rod(SettlePair(a, b).1.rec, c))
  {
    var res := SettlePair(a, b);
    forall c ensures IsCents(Rod(res.0.rec, c)) && IsCents(Rod(res.1.rec, c)) {
      if AssignRoles(a.rec, b.rec) == NoPair {
        assert Rod(res.0.rec, c) == 0.0 && Rod(res.1.rec, c) == 0.0;
      } else {
        PairedRods(a, b);
        var r := RoleResults(a, b).1;
        assert IsCents(Rod(r.rec, c));
        CentsNegate(Rod(r.rec, c));
      }
    }
  }

  /** Negating keeps whole hundredths. */
  lemma CentsNegate(q: real)
    requires IsCents(q)
    ensures IsCents(-q)
  {
    assert (100.0 * -q).Floor == -((100.0 * q).Floor);
  }

  /** With a non-negative receiver correction the rounds are cumulative:
      0 <= rod1 <= rod2 <= rod3 for the receiver, mirrored for the donor. */
  lemma RoundsCumulative(a: Row, b: Row)
    requires AssignRoles(a.rec, b.rec) != NoPair
    requires Parties(a, b).1.rec.ajusteQtd >= 0.0
    ensures var (d, r) := RoleResults(a, b);
            0.0 <= r.rec.rod1 <= r.rec.rod2 <= r.rec.rod3 &&
            d.rec.rod3 <= d.rec.rod2 <= d.rec.rod1 <= 0.0
  {
    PairedRods(a, b);
    var (donor, receiver) := Parties(a, b);
    var am := CumulativeAmounts(ExtractBasics(donor.rec), ExtractBasics(receiver.rec));
    Q2Sign(am.n);
    Q2Monotone(am.n, am.q);
    Q2Monotone(am.q, am.t);
  }

  /** Only the first round is capped: its size is the quantised minimum of
      the receiver's correction and the donor's surplus, so it is at most
      either one quantised. */
  lemma FirstRoundCapped(a: Row, b: Row)
    requires AssignRoles(a.rec, b.rec) != NoPair
    ensures var (donor, receiver) := Parties(a, b);
            var (d, r) := RoleResults(a, b);
            var f := Sobra(donor.rec.enviou, donor.rec.recebeu);
            r.rec.rod1 == -d.rec.rod1 == Q2(Min(receiver.rec.ajusteQtd, f)) &&
            r.rec.rod1 <= Q2(f) && r.rec.rod1 <= Q2(receiver.rec.ajusteQtd)
  {
    PairedRods(a, b);
    var (donor, receiver) := Parties(a, b);
    var f := Sobra(donor.rec.enviou, donor.rec.recebeu);
    var m := receiver.rec.ajusteQtd;
    Q2Monotone(Min(m, f), f);
    Q2Monotone(Min(m, f), m);
  }

  /** The later rounds are not capped by the donor's surplus: a donor with a
      surplus of 1 settling with a receiver short of 10 whose correction is
      9.8 gives 19 in the third round. */
  lemma LaterRoundsUncapped()
    ensures var donor := Row(ComputeDeviation(RawRow(Name("D"), Some(100.0), Some(101.0), Some(0.20))), Absent, Absent);
            var receiver := Row(ComputeDeviation(RawRow(Name("R"), Some(100.0), Some(90.0), Some(0.20))), Absent, Absent);
            var res := SettlePair(donor, receiver);
            donor.rec.sobra == 1.0 && receiver.rec.falta == 10.0 && receiver.rec.ajusteQtd == 9.8 &&
            res.0.rec.rod1 == -1.0 && res.0.rec.rod2 == -10.0 && res.0.rec.rod3 == -19.0 &&
            -res.0.rec.rod3 > donor.rec.sobra
  {
    var donor := Row(ComputeDeviation(RawRow(Name("D"), Some(100.0), Some(101.0), Some(0.20))), Absent, Absent);
    var receiver := Row(ComputeDeviation(RawRow(Name("R"), Some(100.0), Some(90.0), Some(0.20))), Absent, Absent);
    assert donor.rec.enviou == 100.0 && donor.rec.recebeu == 101.0 && donor.rec.sobra == 1.0 && donor.rec.falta == 0.0 && donor.rec.ajusteQtd == 0.8;
    assert receiver.rec.enviou == 100.0 && receiver.rec.recebeu == 90.0 && receiver.rec.falta == 10.0 && receiver.rec.sobra == 0.0 && receiver.rec.ajusteQtd == 9.8;
    SettleUncappedRows(donor, receiver);
  }

  /** Settling any donor and receiver with the quantities of the rows D and
      R above. */
  lemma SettleUncappedRows(donor: Row, receiver: Row)
    requires donor.rec.enviou == 100.0 && donor.rec.recebeu == 101.0 && donor.rec.sobra == 1.0 && donor.rec.falta == 0.0 && donor.rec.ajusteQtd == 0.8
    requires receiver.rec.enviou == 100.0 && receiver.rec.recebeu == 90.0 && receiver.rec.falta == 10.0 && receiver.rec.sobra == 0.0 && receiver.rec.ajusteQtd == 9.8
    ensures var res := SettlePair(donor, receiver);
            res.0.rec.rod1 == -1.0 && res.0.rec.rod2 == -10.0 && res.0.rec.rod3 == -19.0
  {
    assert ExtractBasics(donor.rec) == Basics(100.0, 101.0, 1.0, 0.0, 0.8);
    assert ExtractBasics(receiver.rec) == Basics(100.0, 90.0, 0.0, 10.0, 9.8);
    assert AssignRoles(donor.rec, receiver.rec) == ADonates;
    assert CumulativeAmounts(Basics(100.0, 101.0, 1.0, 0.0, 0.8), Basics(100.0, 90.0, 0.0, 10.0, 9.8)) == Amounts(1.0, 10.0, 19.0);
    assert Q2(1.0) == 1.0 && Q2(10.0) == 10.0 && Q2(19.0) == 19.0;
    PairedRods(donor, receiver);
  }

  /** The two rows of the library's own table test settled as a pair: B
      (100 sent, 120 received) gives, A (100 sent, 90 received) receives. */
  lemma PairExample()
    ensures var a := Row(ComputeDeviation(RawRow(Name("A"), Some(100.0), Some(90.0), Some(0.20))), Absent, Absent);
            var b := Row(ComputeDeviation(RawRow(Name("B"), Some(100.0), Some(120.0), Some(0.20))), Absent, Absent);
            var res := SettlePair(a, b);
            res.0.rec.rod1 == 9.8 && res.0.rec.rod2 == 10.0 && res.0.rec.rod3 == 10.2 &&
            res.0.finalReajustado == Num(100.2) &&
            res.1.rec.rod1 == -9.8 && res.1.rec.rod2 == -10.0 && res.1.rec.rod3 == -10.2 &&
            res.1.finalReajustado == Num(109.8)
  {
    ShortfallExample();
    SurplusExample();
    SettleTestRows(Row(ComputeDeviation(RawRow(Name("A"), Some(100.0), Some(90.0), Some(0.20))), Absent, Absent),
                   Row(ComputeDeviation(RawRow(Name("B"), Some(100.0), Some(120.0), Some(0.20))), Absent, Absent));
  }

  /** Settling any two records with the quantities of the test rows A and B. */
  lemma SettleTestRows(a: Row, b: Row)
    requires a.rec.enviou == 100.0 && a.rec.recebeu == 90.0 && a.rec.falta == 10.0 && a.rec.sobra == 0.0 && a.rec.ajusteQtd == 9.8
    requires b.rec.enviou == 100.0 && b.rec.recebeu == 120.0 && b.rec.sobra == 20.0 && b.rec.falta == 0.0 && b.rec.ajusteQtd == 19.8
    ensures var res := SettlePair(a, b);
            res.0.rec.rod1 == 9.8 && res.0.rec.rod2 == 10.0 && res.0.rec.rod3 == 10.2 &&
            res.0.finalReajustado == Num(100.2) &&
            res.1.rec.rod1 == -9.8 && res.1.rec.rod2 == -10.0 && res.1.rec.rod3 == -10.2 &&
            res.1.finalReajustado == Num(109.8)
  {
    assert ExtractBasics(a.rec) == Basics(100.0, 90.0, 0.0, 10.0, 9.8);
    assert ExtractBasics(b.rec) == Basics(100.0, 120.0, 20.0, 0.0, 19.8);
    assert AssignRoles(a.rec, b.rec) == BDonates;
    assert CumulativeAmounts(Basics(100.0, 120.0, 20.0, 0.0, 19.8), Basics(100.0, 90.0, 0.0, 10.0, 9.8)) == Amounts(9.8, 10.0, 10.2);
    assert Q2(9.8) == 9.8 && Q2(10.0) == 10.0 && Q2(10.2) == 10.2;
    PairedRods(a, b);
  }

  // ---------------------------------------------------------------------
  // Pairing a whole table

  /** The prepared records of the rows. */
  function Records(rows: seq<Row>): (recs: seq<Record>)
    ensures |recs| == |rows| && forall k :: 0 <= k < |rows| ==> recs[k] == rows[k].rec
  {
    seq(|rows|, k requires 0 <= k < |rows| => rows[k].rec)
  }

  /** The two sides of the pairing. */
  datatype Side = Donor | Receiver

  predicate OnSide(r: Record, side: Side)
  {
    match side
    case Donor => r.sobra > 0.0
    case Receiver => r.falta > 0.0
  }

  predicate Increasing(s: seq<nat>)
  {
    forall p, q :: 0 <= p < q < |s| ==> s[p] < s[q]
  }

  /** `out.index[out["sobra"] > 0].tolist()` and its `falta` twin: the
      positions of the rows on one side, in table order. */
  function IndicesOn(recs: seq<Record>, side: Side): (ix: seq<nat>)
    ensures forall k {:trigger k in ix} :: k in ix <==> 0 <= k < |recs| && OnSide(recs[k], side)
    ensures InRange(recs, ix)
  {
    if recs == [] then []
    else
      var n := |recs| - 1;
      var prev := IndicesOn(recs[..n], side);
      assert forall k :: 0 <= k < n ==> recs[..n][k] == recs[k];
      assert forall p :: 0 <= p < |prev| ==> prev[p] in prev;
      prev + (if OnSide(recs[n], side) then [n] else [])
  }

  /** The positions of one side come in table order. */
  lemma {:induction false} IndicesIncreasing(recs: seq<Record>, side: Side)
    ensures Increasing(IndicesOn(recs, side))
  {
    if recs != [] {
      var n := |recs| - 1;
      var prev := IndicesOn(recs[..n], side);
      IndicesIncreasing(recs[..n], side);
      assert forall p :: 0 <= p < |prev| ==> prev[p] in prev;
    }
  }

  predicate InRange(recs: seq<Record>, s: seq<nat>)
  {
    forall p :: 0 <= p < |s| ==> s[p] < |recs|
  }

  /** Row i is ranked before row j: a larger `pulmao`, or an equal one and an
      earlier position (the sort is stable). */
  predicate Precedes(recs: seq<Record>, i: nat, j: nat)
    requires i < |recs| && j < |recs|
  {
    recs[i].pulmao > recs[j].pulmao || (recs[i].pulmao == recs[j].pulmao && i < j)
  }

  predicate Ranked(recs: seq<Record>, s: seq<nat>)
    requires InRange(recs, s)
  {
    forall p, q :: 0 <= p < q < |s| ==> Precedes(recs, s[p], s[q])
  }

  /** Insert `x` after every element whose `pulmao` is at least its own. */
  function InsertRanked(recs: seq<Record>, s: seq<nat>, x: nat): (r: seq<nat>)
    requires InRange(recs, s) && x < |recs|
    ensures multiset(r) == multiset(s) + multiset{x} && |r| == |s| + 1
    ensures InRange(recs, r)
  {
    if s == [] then [x]
    else if recs[s[0]].pulmao >= recs[x].pulmao then
      assert s == [s[0]] + s[1..];
      [s[0]] + InsertRanked(recs, s[1..], x)
    else [x] + s
  }

  lemma HeadPrecedesTail(recs: seq<Record>, s: seq<nat>)
    requires InRange(recs, s) && Ranked(recs, s) && s != []
    ensures InRange(recs, s[1..]) && Ranked(recs, s[1..])
    ensures forall k :: k in s[1..] ==> Precedes(recs, s[0], k)
  {
    forall p, q | 0 <= p < q < |s[1..]| ensures Precedes(recs, s[1..][p], s[1..][q]) {
      assert s[1..][p] == s[p + 1] && s[1..][q] == s[q + 1];
    }
    forall k | k in s[1..] ensures Precedes(recs, s[0], k) {
      var q :| 0 <= q < |s[1..]| && s[1..][q] == k;
      assert s[q + 1] == k;
    }
  }

  lemma RankedCons(recs: seq<Record>, y: nat, t: seq<nat>)
    requires InRange(recs, t) && y < |recs| && Ranked(recs, t)
    requires forall k :: k in t ==> Precedes(recs, y, k)
    ensures InRange(recs, [y] + t) && Ranked(recs, [y] + t)
  {
    var r := [y] + t;
    forall p, q | 0 <= p < q < |r| ensures Precedes(recs, r[p], r[q]) {
      assert r[q] == t[q - 1];
      if p == 0 {
        assert r[q] in t;
      } else {
        assert r[p] == t[p - 1];
      }
    }
  }

  lemma {:induction false} InsertRankedKeepsRank(recs: seq<Record>, s: seq<nat>, x: nat)
    requires InRange(recs, s) && x < |recs|
    requires Ranked(recs, s) && forall k :: k in s ==> k < x
    ensures Ranked(recs, InsertRanked(recs, s, x))
  {
    if s == [] {
      return;
    }
    assert s == [s[0]] + s[1..];
    assert s[0] in s;
    HeadPrecedesTail(recs, s);
    if recs[s[0]].pulmao >= recs[x].pulmao {
      var t := InsertRanked(recs, s[1..], x);
      assert forall k :: k in s[1..] ==> k in s;
      InsertRankedKeepsRank(recs, s[1..], x);
      forall k | k in t ensures Precedes(recs, s[0], k) {
        assert k in multiset(t);
        if k != x {
          assert k in s[1..];
        }
      }
      RankedCons(recs, s[0], t);
    } else {
      forall k | k in s ensures Precedes(recs, x, k) {
        if k != s[0] {
          assert k in s[1..];
        }
      }
      RankedCons(recs, x, s);
    }
  }

  /** `list.sort(key=pulmao, reverse=True)`: a stable sort, largest `pulmao`
      first, written as an insertion sort. */
  function SortByPulmao(recs: seq<Record>, s: seq<nat>): (r: seq<nat>)
    requires InRange(recs, s)
    ensures |r| == |s| && InRange(recs, r)
  {
    if s == [] then []
    else
      var n := |s| - 1;
      InsertRanked(recs, SortByPulmao(recs, s[..n]), s[n])
  }

  /** The sorted list is a permutation of its input. */
  lemma {:induction false} SortPermutes(recs: seq<Record>, s: seq<nat>)
    requires InRange(recs, s)
    ensures multiset(SortByPulmao(recs, s)) == multiset(s)
  {
    if s != [] {
      var n := |s| - 1;
      assert s == s[..n] + [s[n]];
      SortPermutes(recs, s[..n]);
    }
  }

  /** Sorting a list of positions given in table order ranks them: largest
      `pulmao` first, ties in table order. */
  lemma {:induction false} SortRanks(recs: seq<Record>, s: seq<nat>)
    requires InRange(recs, s) && Increasing(s)
    ensures Ranked(recs, SortByPulmao(recs, s))
  {
    if s != [] {
      var n := |s| - 1;
      assert s == s[..n] + [s[n]];
      SortRanks(recs, s[..n]);
      SortPermutes(recs, s[..n]);
      var sorted := SortByPulmao(recs, s[..n]);
      forall k | k in sorted ensures k < s[n] {
        assert k in multiset(sorted);
        var q :| 0 <= q < |s[..n]| && s[..n][q] == k;
      }
      InsertRankedKeepsRank(recs, sorted, s[n]);
    }
  }

  /** Sorting keeps exactly the positions it is given. */
  lemma SortKeepsMembers(recs: seq<Record>, s: seq<nat>)
    requires InRange(recs, s)
    ensures forall k :: k in SortByPulmao(recs, s) <==> k in s
  {
    var r := SortByPulmao(recs, s);
    SortPermutes(recs, s);
    forall k ensures k in r <==> k in s {
      assert k in r <==> k in multiset(r);
      assert k in s <==> k in multiset(s);
    }
  }

  /** Lines 104-107: the donors (or receivers), ranked by `pulmao`. */
  function Ranking(recs: seq<Record>, side: Side): (r: seq<nat>)
    ensures InRange(recs, r) && |r| == |IndicesOn(recs, side)|
  {
    SortByPulmao(recs, IndicesOn(recs, side))
  }

  /** The ranking of one side holds exactly that side's rows, larger
      `pulmao` first and ties in table order. */
  lemma RankingRanksSide(recs: seq<Record>, side: Side)
    ensures var r := Ranking(recs, side);
            (forall k :: k in r <==> 0 <= k < |recs| && OnSide(recs[k], side)) && Ranked(recs, r)
  {
    var ix := IndicesOn(recs, side);
    IndicesIncreasing(recs, side);
    SortRanks(recs, ix);
    SortKeepsMembers(recs, ix);
  }

  /** `zip`: the pairs of same-position entries, as many as the shorter
      list has. */
  function Zip(a: seq<nat>, b: seq<nat>): (z: seq<(nat, nat)>)
    ensures |z| == (if |a| <= |b| then |a| else |b|)
    ensures forall p :: 0 <= p < |z| ==> z[p] == (a[p], b[p])
  {
    var n := if |a| <= |b| then |a| else |b|;
    seq(n, p requires 0 <= p < n => (a[p], b[p]))
  }

  /** Lines 104-109: donors and receivers, each ranked by `pulmao`, zipped
      position by position. */
  function Pairs(recs: seq<Record>): (ps: seq<(nat, nat)>)
    ensures |ps| <= |IndicesOn(recs, Donor)| && |ps| <= |IndicesOn(recs, Receiver)|
    ensures |ps| == |IndicesOn(recs, Donor)| || |ps| == |IndicesOn(recs, Receiver)|
    ensures forall p :: 0 <= p < |ps| ==> ps[p].0 < |recs| && ps[p].1 < |recs|
  {
    Zip(Ranking(recs, Donor), Ranking(recs, Receiver))
  }

  /** Every pair joins a donor and a receiver, so `calcular_rods_para_par`
      always takes its a-is-donor branch. */
  lemma PairsJoinDonorsAndReceivers(recs: seq<Record>)
    ensures var ps := Pairs(recs);
            forall p :: 0 <= p < |ps| ==>
              OnSide(recs[ps[p].0], Donor) && OnSide(recs[ps[p].1], Receiver) &&
              AssignRoles(recs[ps[p].0], recs[ps[p].1]) == ADonates
  {
    var ps := Pairs(recs);
    var ds, rs := Ranking(recs, Donor), Ranking(recs, Receiver);
    RankingRanksSide(recs, Donor);
    RankingRanksSide(recs, Receiver);
    forall p | 0 <= p < |ps| ensures OnSide(recs[ps[p].0], Donor) && OnSide(recs[ps[p].1], Receiver) {
      assert ps[p] == (ds[p], rs[p]);
      assert ds[p] in ds && rs[p] in rs;
    }
  }

  /** Both columns of the pairing are ranked: larger `pulmao` first, ties in
      table order. */
  lemma PairsRanked(recs: seq<Record>)
    ensures var ps := Pairs(recs);
            forall p, q :: 0 <= p < q < |ps| ==>
              Precedes(recs, ps[p].0, ps[q].0) && Precedes(recs, ps[p].1, ps[q].1)
  {
    var ps := Pairs(recs);
    var ds, rs := Ranking(recs, Donor), Ranking(recs, Receiver);
    RankingRanksSide(recs, Donor);
    RankingRanksSide(recs, Receiver);
    forall p, q | 0 <= p < q < |ps| ensures Precedes(recs, ps[p].0, ps[q].0) && Precedes(recs, ps[p].1, ps[q].1) {
      assert ps[p] == (ds[p], rs[p]) && ps[q] == (ds[q], rs[q]);
    }
  }

  /** The side with fewer members is paired completely: each of its rows is
      in some pair. */
  lemma PairsCoverShorterSide(recs: seq<Record>)
    ensures var ps := Pairs(recs);
            (|ps| == |IndicesOn(recs, Donor)| ==>
               forall k :: 0 <= k < |recs| && OnSide(recs[k], Donor) ==> exists p :: 0 <= p < |ps| && ps[p].0 == k) &&
            (|ps| == |IndicesOn(recs, Receiver)| ==>
               forall k :: 0 <= k < |recs| && OnSide(recs[k], Receiver) ==> exists p :: 0 <= p < |ps| && ps[p].1 == k)
  {
    var ps := Pairs(recs);
    var ds, rs := Ranking(recs, Donor), Ranking(recs, Receiver);
    RankingRanksSide(recs, Donor);
    RankingRanksSide(recs, Receiver);
    if |ps| == |ds| {
      forall k | 0 <= k < |recs| && OnSide(recs[k], Donor) ensures exists p :: 0 <= p < |ps| && ps[p].0 == k {
        var p :| 0 <= p < |ds| && ds[p] == k;
        assert ps[p].0 == k;
      }
    }
    if |ps| == |rs| {
      forall k | 0 <= k < |recs| && OnSide(recs[k], Receiver) ensures exists p :: 0 <= p < |ps| && ps[p].1 == k {
        var p :| 0 <= p < |rs| && rs[p] == k;
        assert ps[p].1 == k;
      }
    }
  }

  /** In a ranked list, a position missing from the first `n` entries ranks
      below each of them. */
  lemma RankedPrefixFirst(recs: seq<Record>, s: seq<nat>, n: nat, i: nat, k: nat)
    requires InRange(recs, s) && Ranked(recs, s) && i < n <= |s| && k < |recs|
    requires k in s && forall q :: 0 <= q < n ==> s[q] != k
    ensures Precedes(recs, s[i], k)
  {
    var m :| 0 <= m < |s| && s[m] == k;
    assert i < m;
  }

  /** Zipping a ranked first list pairs its top-ranked entries. */
  lemma ZipTakesTopFirst(recs: seq<Record>, a: seq<nat>, b: seq<nat>)
    requires InRange(recs, a) && Ranked(recs, a)
    ensures var z := Zip(a, b);
            forall p, k :: (0 <= p < |z| && 0 <= k < |recs| && k in a &&
                            (forall q :: 0 <= q < |z| ==> z[q].0 != k)) ==>
                           Precedes(recs, z[p].0, k)
  {
    var z := Zip(a, b);
    forall p, k | 0 <= p < |z| && 0 <= k < |recs| && k in a && (forall q :: 0 <= q < |z| ==> z[q].0 != k)
      ensures Precedes(recs, z[p].0, k)
    {
      RankedPrefixFirst(recs, a, |z|, p, k);
    }
  }

  /** Zipping a ranked second list pairs its top-ranked entries. */
  lemma ZipTakesTopSecond(recs: seq<Record>, a: seq<nat>, b: seq<nat>)
    requires InRange(recs, b) && Ranked(recs, b)
    ensures var z := Zip(a, b);
            forall p, k :: (0 <= p < |z| && 0 <= k < |recs| && k in b &&
                            (forall q :: 0 <= q < |z| ==> z[q].1 != k)) ==>
                           Precedes(recs, z[p].1, k)
  {
    var z := Zip(a, b);
    forall p, k | 0 <= p < |z| && 0 <= k < |recs| && k in b && (forall q :: 0 <= q < |z| ==> z[q].1 != k)
      ensures Precedes(recs, z[p].1, k)
    {
      RankedPrefixFirst(recs, b, |z|, p, k);
    }
  }

  /** The paired donors are the top-ranked ones: every donor left out of the
      pairing ranks below every paired donor. */
  lemma PairsTakeTopDonors(recs: seq<Record>)
    ensures var ps := Pairs(recs);
            forall p, k :: (0 <= p < |ps| && 0 <= k < |recs| && OnSide(recs[k], Donor) &&
                            (forall q :: 0 <= q < |ps| ==> ps[q].0 != k)) ==>
                           Precedes(recs, ps[p].0, k)
  {
    RankingRanksSide(recs, Donor);
    ZipTakesTopFirst(recs, Ranking(recs, Donor), Ranking(recs, Receiver));
  }

  /** The paired receivers are the top-ranked ones: every receiver left out
      of the pairing ranks below every paired receiver. */
  lemma PairsTakeTopReceivers(recs: seq<Record>)
    ensures var ps := Pairs(recs);
            forall p, k :: (0 <= p < |ps| && 0 <= k < |recs| && OnSide(recs[k], Receiver) &&
                            (forall q :: 0 <= q < |ps| ==> ps[q].1 != k)) ==>
                           Precedes(recs, ps[p].1, k)
  {
    RankingRanksSide(recs, Receiver);
    ZipTakesTopSecond(recs, Ranking(recs, Donor), Ranking(recs, Receiver));
  }

  /** No row appears in two places of the pairing. */
  predicate Separate(ps: seq<(nat, nat)>)
  {
    (forall p, q :: 0 <= p < |ps| && 0 <= q < |ps| ==> ps[p].0 != ps[q].1) &&
    (forall p, q :: 0 <= p < q < |ps| ==> ps[p].0 != ps[q].0 && ps[p].1 != ps[q].1)
  }

  /** When no row is both a donor and a receiver, which every prepared table
      guarantees, the pairing is separate. */
  lemma PairsSeparate(recs: seq<Record>)
    requires forall k :: 0 <= k < |recs| ==> Exclusive(recs[k])
    ensures Separate(Pairs(recs))
  {
    var ps := Pairs(recs);
    PairsJoinDonorsAndReceivers(recs);
    PairsRanked(recs);
    forall p, q | 0 <= p < q < |ps| ensures ps[p].0 != ps[q].0 && ps[p].1 != ps[q].1 {
      assert Precedes(recs, ps[p].0, ps[q].0) && Precedes(recs, ps[p].1, ps[q].1);
    }
  }

  /** The rows written by the first `n` pairs. */
  function Touched(ps: seq<(nat, nat)>, n: nat): set<nat>
    requires n <= |ps|
  {
    (set p | 0 <= p < n :: ps[p].0) + (set p | 0 <= p < n :: ps[p].1)
  }

  // ---------------------------------------------------------------------
  // Column sums

  datatype RodColumn = Rod1 | Rod2 | Rod3

  function Rod(r: Record, c: RodColumn): real
  {
    match c
    case Rod1 => r.rod1
    case Rod2 => r.rod2
    case Rod3 => r.rod3
  }

  /** The sum of one rod column. */
  function RodSum(rows: seq<Row>, c: RodColumn): real
  {
    if rows == [] then 0.0 else RodSum(rows[..|rows| - 1], c) + Rod(rows[|rows| - 1].rec, c)
  }

  lemma {:induction false} RodSumUpdate(rows: seq<Row>, i: nat, v: Row, c: RodColumn)
    requires i < |rows|
    ensures RodSum(rows[i := v], c) == RodSum(rows, c) - Rod(rows[i].rec, c) + Rod(v.rec, c)
  {
    var n := |rows| - 1;
    if i == n {
      assert rows[i := v][..n] == rows[..n];
    } else {
      assert rows[i := v][..n] == rows[..n][i := v];
      RodSumUpdate(rows[..n], i, v, c);
    }
  }

  lemma {:induction false} RodSumOfZeros(rows: seq<Row>, c: RodColumn)
    requires forall k :: 0 <= k < |rows| ==> Rod(rows[k].rec, c) == 0.0
    ensures RodSum(rows, c) == 0.0
  {
    if rows != [] {
      RodSumOfZeros(rows[..|rows| - 1], c);
    }
  }

  lemma {:induction false} RodSumOfSameRods(s: seq<Row>, t: seq<Row>, c: RodColumn)
    requires |s| == |t| && forall k :: 0 <= k < |s| ==> Rod(s[k].rec, c) == Rod(t[k].rec, c)
    ensures RodSum(s, c) == RodSum(t, c)
  {
    if s != [] {
      RodSumOfSameRods(s[..|s| - 1], t[..|t| - 1], c);
    }
  }

  predicate RodsZero(rows: seq<Row>)
  {
    forall k, c :: 0 <= k < |rows| ==> Rod(rows[k].rec, c) == 0.0
  }

  // ---------------------------------------------------------------------
  // `parear_e_aplicar_rods`

  /** Lines 113-118: the five settlement cells of `r` written into `x`. */
  function WriteBack(x: Row, r: Row): (w: Row)
    ensures SameExceptSettlement(r, x) ==> w == r
  {
    x.(rec := x.rec.(rod1 := r.rec.rod1, rod2 := r.rec.rod2, rod3 := r.rec.rod3),
       finalReajustado := r.finalReajustado, ajusteTotal := r.ajusteTotal)
  }

  /** One pass of the loop at lines 109-118 on the pair (i, j). */
  function Step(out: seq<Row>, i: nat, j: nat): (r: seq<Row>)
    requires i < |out| && j < |out|
    ensures |r| == |out|
    // two distinct rows end up holding the pair's settlement results
    ensures i != j ==> r[i] == SettlePair(out[i], out[j]).0 && r[j] == SettlePair(out[i], out[j]).1
  {
    var (ra, rb) := SettlePair(out[i], out[j]);
    var middle := out[i := WriteBack(out[i], ra)];
    middle[j := WriteBack(middle[j], rb)]
  }

  predicate PairsInRange(rows: seq<Row>, pairs: seq<(nat, nat)>)
  {
    forall p :: 0 <= p < |pairs| ==> pairs[p].0 < |rows| && pairs[p].1 < |rows|
  }

  /** What holds after the first `p` pairs have been written back. */
  ghost predicate Progress(rows: seq<Row>, pairs: seq<(nat, nat)>, p: nat, out: seq<Row>)
    requires PairsInRange(rows, pairs) && p <= |pairs|
  {
    |out| == |rows| &&
    (forall k :: 0 <= k < |rows| ==> SameExceptSettlement(out[k], rows[k])) &&
    (forall k :: 0 <= k < |rows| && k !in Touched(pairs, p) ==> out[k] == rows[k]) &&
    (Separate(pairs) ==> forall q :: 0 <= q < p ==>
       out[pairs[q].0] == SettlePair(rows[pairs[q].0], rows[pairs[q].1]).0 &&
       out[pairs[q].1] == SettlePair(rows[pairs[q].0], rows[pairs[q].1]).1) &&
    (Separate(pairs) && RodsZero(rows) ==> forall c :: RodSum(out, c) == 0.0)
  }

  lemma ProgressStarts(rows: seq<Row>, pairs: seq<(nat, nat)>)
    requires PairsInRange(rows, pairs)
    ensures Progress(rows, pairs, 0, rows)
  {
    if RodsZero(rows) {
      forall c ensures RodSum(rows, c) == 0.0 {
        RodSumOfZeros(rows, c);
      }
    }
  }

  /** Writing one pair back changes only the settlement cells of its two rows. */
  lemma StepFrame(out: seq<Row>, i: nat, j: nat)
    requires i < |out| && j < |out|
    ensures |Step(out, i, j)| == |out|
    ensures forall k :: 0 <= k < |out| ==> SameExceptSettlement(Step(out, i, j)[k], out[k])
    ensures forall k :: 0 <= k < |out| && k != i && k != j ==> Step(out, i, j)[k] == out[k]
    ensures i != j ==> Step(out, i, j)[i] == SettlePair(out[i], out[j]).0 && Step(out, i, j)[j] == SettlePair(out[i], out[j]).1
  {
  }

  /** Writing one pair back moves no rod column total when both rows start
      with no rods. */
  lemma StepSums(out: seq<Row>, i: nat, j: nat)
    requires i < |out| && j < |out| && i != j
    requires forall c :: Rod(out[i].rec, c) == 0.0 && Rod(out[j].rec, c) == 0.0
    requires forall c :: RodSum(out, c) == 0.0
    ensures forall c :: RodSum(Step(out, i, j), c) == 0.0
  {
    var (ra, rb) := SettlePair(out[i], out[j]);
    var middle := out[i := WriteBack(out[i], ra)];
    assert Step(out, i, j) == middle[j := WriteBack(middle[j], rb)];
    forall c ensures RodSum(Step(out, i, j), c) == 0.0 {
      RodSumUpdate(out, i, WriteBack(out[i], ra), c);
      RodSumUpdate(middle, j, WriteBack(middle[j], rb), c);
    }
  }

  /** After one more pass, the rows of every pair so far hold that pair's
      results, when no row is in two places. */
  lemma StepKeepsResults(rows: seq<Row>, pairs: seq<(nat, nat)>, p: nat, out: seq<Row>)
    requires PairsInRange(rows, pairs) && p < |pairs| && |out| == |rows| && Separate(pairs)
    requires forall k :: 0 <= k < |rows| && k !in Touched(pairs, p) ==> out[k] == rows[k]
    requires forall q :: 0 <= q < p ==>
       out[pairs[q].0] == SettlePair(rows[pairs[q].0], rows[pairs[q].1]).0 &&
       out[pairs[q].1] == SettlePair(rows[pairs[q].0], rows[pairs[q].1]).1
    ensures var next := Step(out, pairs[p].0, pairs[p].1);
      forall q :: 0 <= q < p + 1 ==>
        next[pairs[q].0] == SettlePair(rows[pairs[q].0], rows[pairs[q].1]).0 &&
        next[pairs[q].1] == SettlePair(rows[pairs[q].0], rows[pairs[q].1]).1
  {
    var (i, j) := pairs[p];
    var next := Step(out, i, j);
    StepFrame(out, i, j);
    assert i != j && i !in Touched(pairs, p) && j !in Touched(pairs, p);
    forall q | 0 <= q < p + 1
      ensures next[pairs[q].0] == SettlePair(rows[pairs[q].0], rows[pairs[q].1]).0
      ensures next[pairs[q].1] == SettlePair(rows[pairs[q].0], rows[pairs[q].1]).1
    {
      if q < p {
        assert pairs[q].0 != i && pairs[q].0 != j && pairs[q].1 != i && pairs[q].1 != j;
      }
    }
  }

  lemma ProgressSteps(rows: seq<Row>, pairs: seq<(nat, nat)>, p: nat, out: seq<Row>)
    requires PairsInRange(rows, pairs) && p < |pairs|
    requires Progress(rows, pairs, p, out)
    ensures Progress(rows, pairs, p + 1, Step(out, pairs[p].0, pairs[p].1))
  {
    var (i, j) := pairs[p];
    var next := Step(out, i, j);
    StepFrame(out, i, j);
    assert Touched(pairs, p + 1) == Touched(pairs, p) + {i, j};
    assert |next| == |rows| && forall k :: 0 <= k < |rows| ==> SameExceptSettlement(next[k], rows[k]);
    assert forall k :: 0 <= k < |rows| && k !in Touched(pairs, p + 1) ==> next[k] == rows[k];
    if Separate(pairs) {
      StepKeepsResults(rows, pairs, p, out);
      if RodsZero(rows) {
        assert i != j && i !in Touched(pairs, p) && j !in Touched(pairs, p);
        assert out[i] == rows[i] && out[j] == rows[j];
        StepSums(out, i, j);
      }
    }
  }

  /** Lines 109-118: settle each pair on the current rows and write the
      results back. */
  method ApplyPairs(rows: seq<Row>, pairs: seq<(nat, nat)>) returns (out: seq<Row>)
    requires PairsInRange(rows, pairs)
    ensures |out| == |rows|
    ensures forall k :: 0 <= k < |rows| ==> SameExceptSettlement(out[k], rows[k])
    ensures forall k :: 0 <= k < |rows| && k !in Touched(pairs, |pairs|) ==> out[k] == rows[k]
    ensures Separate(pairs) ==> forall p :: 0 <= p < |pairs| ==>
      out[pairs[p].0] == SettlePair(rows[pairs[p].0], rows[pairs[p].1]).0 &&
      out[pairs[p].1] == SettlePair(rows[pairs[p].0], rows[pairs[p].1]).1
    ensures Separate(pairs) && RodsZero(rows) ==> forall c :: RodSum(out, c) == 0.0
  {
    out := rows;
    ProgressStarts(rows, pairs);
    for p := 0 to |pairs|
      invariant Progress(rows, pairs, p, out)
    {
      ProgressSteps(rows, pairs, p, out);
      out := Step(out, pairs[p].0, pairs[p].1);
    }
  }

  /** The rows the pairing writes. */
  function Paired(recs: seq<Record>): set<nat>
  {
    Touched(Pairs(recs), |Pairs(recs)|)
  }

  /** Lines 100-102 as written: a settlement column that does not exist yet
      is created holding 0.0. */
  function AddColumns(x: Row): (r: Row)
    ensures r.rec == x.rec
    // both settlement columns exist afterwards, each created one holding 0.0
    ensures r.finalReajustado == (if x.finalReajustado.Absent? then Num(0.0) else x.finalReajustado)
    ensures r.ajusteTotal == (if x.ajusteTotal.Absent? then Num(0.0) else x.ajusteTotal)
  {
    x.(finalReajustado := if x.finalReajustado == Absent then Num(0.0) else x.finalReajustado,
       ajusteTotal := if x.ajusteTotal == Absent then Num(0.0) else x.ajusteTotal)
  }

  /** Lines 100-102 as the docstring at line 97 needs them: a fresh
      `final_reajustado` column starts out NaN (not yet settled), so that
      lines 121-123 fill in every unpaired row. */
  function AddColumnsIntended(x: Row): (r: Row)
    ensures r.rec == x.rec
    // both settlement columns exist afterwards; a created final_reajustado is unsettled
    ensures !r.finalReajustado.Absent? && !r.ajusteTotal.Absent?
    ensures x.finalReajustado.Absent? ==> r.finalReajustado == NaN
    ensures !x.finalReajustado.Absent? ==> r.finalReajustado == x.finalReajustado
    ensures r.ajusteTotal == (if x.ajusteTotal.Absent? then Num(0.0) else x.ajusteTotal)
  {
    x.(finalReajustado := if x.finalReajustado == Absent then NaN else x.finalReajustado,
       ajusteTotal := if x.ajusteTotal == Absent then Num(0.0) else x.ajusteTotal)
  }

  /** Lines 121-123: a row whose `final_reajustado` is NaN gets what was
      received, and no adjustment. */
  function FillUnpaired(x: Row): (r: Row)
    ensures r.rec == x.rec
    // a NaN final becomes what was received, with no adjustment; any other row is kept
    ensures x.finalReajustado == NaN ==> r.finalReajustado == Num(x.rec.recebeu) && r.ajusteTotal == Num(0.0)
    ensures x.finalReajustado != NaN ==> r == x
    ensures r.finalReajustado != NaN
  {
    if x.finalReajustado == NaN then x.(finalReajustado := Num(x.rec.recebeu), ajusteTotal := Num(0.0)) else x
  }

  /** The settlement columns of a pair do not depend on what those columns
      held before. */
  lemma SettlePairReadsRecords(a: Row, b: Row, a': Row, b': Row)
    requires a'.rec == a.rec && b'.rec == b.rec
    ensures SettlePair(a', b') == SettlePair(a, b)
  {
  }

  /** The mask of lines 121-123 leaves settled pairs as they are: a settled
      row holds a number in `final_reajustado`. */
  lemma MaskKeepsPairs(rows: seq<Row>, pairs: seq<(nat, nat)>, applied: seq<Row>, out: seq<Row>)
    requires PairsInRange(rows, pairs) && |applied| == |rows| && |out| == |rows|
    requires forall k :: 0 <= k < |applied| ==> out[k] == FillUnpaired(applied[k])
    requires forall p :: 0 <= p < |pairs| ==>
      applied[pairs[p].0] == SettlePair(rows[pairs[p].0], rows[pairs[p].1]).0 &&
      applied[pairs[p].1] == SettlePair(rows[pairs[p].0], rows[pairs[p].1]).1
    ensures forall p :: 0 <= p < |pairs| ==>
      out[pairs[p].0] == SettlePair(rows[pairs[p].0], rows[pairs[p].1]).0 &&
      out[pairs[p].1] == SettlePair(rows[pairs[p].0], rows[pairs[p].1]).1
  {
    forall p | 0 <= p < |pairs|
      ensures out[pairs[p].0] == SettlePair(rows[pairs[p].0], rows[pairs[p].1]).0
      ensures out[pairs[p].1] == SettlePair(rows[pairs[p].0], rows[pairs[p].1]).1
    {
      var res := SettlePair(rows[pairs[p].0], rows[pairs[p].1]);
      assert Settled(res.0) && Settled(res.1);
    }
  }

  /** Lines 104-123, once the settlement columns exist. */
  method SettleRows(rows: seq<Row>) returns (out: seq<Row>)
    ensures |out| == |rows|
    ensures forall k :: 0 <= k < |rows| ==> SameExceptSettlement(out[k], rows[k])
    ensures forall k :: 0 <= k < |rows| && k !in Paired(Records(rows)) ==> out[k] == FillUnpaired(rows[k])
    ensures (forall k :: 0 <= k < |rows| ==> Exclusive(rows[k].rec)) ==>
      var ps := Pairs(Records(rows));
      forall p :: 0 <= p < |ps| ==>
        out[ps[p].0] == SettlePair(rows[ps[p].0], rows[ps[p].1]).0 &&
        out[ps[p].1] == SettlePair(rows[ps[p].0], rows[ps[p].1]).1
    ensures (forall k :: 0 <= k < |rows| ==> Exclusive(rows[k].rec)) && RodsZero(rows) ==>
      forall c :: RodSum(out, c) == 0.0
  {
    var recs := Records(rows);
    var pairs := Pairs(recs);
    var applied := ApplyPairs(rows, pairs);
    out := seq(|applied|, k requires 0 <= k < |applied| => FillUnpaired(applied[k]));
    assert Paired(Records(rows)) == Touched(pairs, |pairs|);
    if forall k :: 0 <= k < |rows| ==> Exclusive(rows[k].rec) {
      PairsSeparate(recs);
      MaskKeepsPairs(rows, pairs, applied, out);
      if RodsZero(rows) {
        forall c ensures RodSum(out, c) == 0.0 {
          RodSumOfSameRods(out, applied, c);
        }
      }
    }
  }

  /** Two tables with the same records pair the same rows and settle each
      pair the same way, whatever their settlement cells hold. */
  lemma SameRecordsSameSettlement(df: seq<Row>, rows: seq<Row>)
    requires |rows| == |df| && forall k :: 0 <= k < |df| ==> rows[k].rec == df[k].rec
    ensures Records(rows) == Records(df)
    ensures RodsZero(df) ==> RodsZero(rows)
    ensures var ps := Pairs(Records(df));
            forall p :: 0 <= p < |ps| ==>
              SettlePair(rows[ps[p].0], rows[ps[p].1]) == SettlePair(df[ps[p].0], df[ps[p].1])
  {
    assert Records(rows) == Records(df);
    var ps := Pairs(Records(df));
    forall p | 0 <= p < |ps|
      ensures SettlePair(rows[ps[p].0], rows[ps[p].1]) == SettlePair(df[ps[p].0], df[ps[p].1])
    {
      SettlePairReadsRecords(df[ps[p].0], df[ps[p].1], rows[ps[p].0], rows[ps[p].1]);
    }
  }

  /** What `SettleRows` promises about the table with its settlement
      columns created carries over to the table it was created from. */
  lemma CarrySettlement(df: seq<Row>, rows: seq<Row>, out: seq<Row>)
    requires |rows| == |df| && forall k :: 0 <= k < |df| ==> rows[k].rec == df[k].rec
    requires |out| == |rows|
    requires forall k :: 0 <= k < |rows| ==> SameExceptSettlement(out[k], rows[k])
    requires (forall k :: 0 <= k < |rows| ==> Exclusive(rows[k].rec)) ==>
      var ps := Pairs(Records(rows));
      forall p :: 0 <= p < |ps| ==>
        out[ps[p].0] == SettlePair(rows[ps[p].0], rows[ps[p].1]).0 &&
        out[ps[p].1] == SettlePair(rows[ps[p].0], rows[ps[p].1]).1
    requires (forall k :: 0 <= k < |rows| ==> Exclusive(rows[k].rec)) && RodsZero(rows) ==>
      forall c :: RodSum(out, c) == 0.0
    ensures Records(rows) == Records(df)
    ensures forall k :: 0 <= k < |df| ==> SameExceptSettlement(out[k], df[k])
    ensures (forall k :: 0 <= k < |df| ==> Exclusive(df[k].rec)) ==>
      var ps := Pairs(Records(df));
      forall p :: 0 <= p < |ps| ==>
        out[ps[p].0] == SettlePair(df[ps[p].0], df[ps[p].1]).0 &&
        out[ps[p].1] == SettlePair(df[ps[p].0], df[ps[p].1]).1
    ensures (forall k :: 0 <= k < |df| ==> Exclusive(df[k].rec)) && RodsZero(df) ==>
      forall c :: RodSum(out, c) == 0.0
  {
    SameRecordsSameSettlement(df, rows);
  }

  /** An unpaired row as written: its rods are kept, `final_reajustado` is
      0.0 where the column was created and `recebeu` where it was NaN, and
      `ajuste_total` is 0.0 where it was created or `final_reajustado` was NaN. */
  lemma UnpairedAsWritten(x: Row)
    ensures var y := FillUnpaired(AddColumns(x));
            y.rec == x.rec &&
            (x.finalReajustado == Absent ==> y.finalReajustado == Num(0.0)) &&
            (x.finalReajustado == NaN ==> y.finalReajustado == Num(x.rec.recebeu)) &&
            (x.finalReajustado.Num? ==> y.finalReajustado == x.finalReajustado) &&
            y.ajusteTotal == (if x.finalReajustado == NaN || x.ajusteTotal == Absent then Num(0.0) else x.ajusteTotal)
  {
  }

  /** An unpaired row with the columns created as intended: unless it holds a
      settlement already, it ends with what it received and no adjustment. */
  lemma UnpairedCorrected(x: Row)
    ensures var y := FillUnpaired(AddColumnsIntended(x));
            y.rec == x.rec &&
            (x.finalReajustado.Num? ==> y == x.(ajusteTotal := if x.ajusteTotal == Absent then Num(0.0) else x.ajusteTotal)) &&
            (!x.finalReajustado.Num? ==> y.finalReajustado == Num(x.rec.recebeu) && y.ajusteTotal == Num(0.0))
  {
  }

  /** `parear_e_aplicar_rods`, as written. */
  method PairAndApply(df: seq<Row>) returns (out: seq<Row>)
    ensures |out| == |df|
    // only the five settlement columns change
    ensures forall k :: 0 <= k < |df| ==> SameExceptSettlement(out[k], df[k])
    // an unpaired row keeps its rods; its final_reajustado is filled only where it was NaN
    // and is 0.0 where the column was created
    ensures forall k :: 0 <= k < |df| && k !in Paired(Records(df)) ==>
      out[k].rec == df[k].rec &&
      (df[k].finalReajustado == Absent ==> out[k].finalReajustado == Num(0.0)) &&
      (df[k].finalReajustado == NaN ==> out[k].finalReajustado == Num(df[k].rec.recebeu)) &&
      (df[k].finalReajustado.Num? ==> out[k].finalReajustado == df[k].finalReajustado) &&
      out[k].ajusteTotal == (if df[k].finalReajustado == NaN || df[k].ajusteTotal == Absent then Num(0.0)
                             else df[k].ajusteTotal)
    // every pair is settled as calcular_rods_para_par settles it
    ensures (forall k :: 0 <= k < |df| ==> Exclusive(df[k].rec)) ==>
      var ps := Pairs(Records(df));
      forall p :: 0 <= p < |ps| ==>
        out[ps[p].0] == SettlePair(df[ps[p].0], df[ps[p].1]).0 &&
        out[ps[p].1] == SettlePair(df[ps[p].0], df[ps[p].1]).1
    // conservation over the table
    ensures (forall k :: 0 <= k < |df| ==> Exclusive(df[k].rec)) && RodsZero(df) ==>
      forall c :: RodSum(out, c) == 0.0
  {
    var rows := seq(|df|, k requires 0 <= k < |df| => AddColumns(df[k]));
    out := SettleRows(rows);
    CarrySettlement(df, rows, out);
    UnpairedRowsAsWritten(df, rows, out, Paired(Records(rows)));
  }

  /** Every unpaired row, as written, in the terms of `UnpairedAsWritten`. */
  lemma UnpairedRowsAsWritten(df: seq<Row>, rows: seq<Row>, out: seq<Row>, paired: set<nat>)
    requires |rows| == |df| && |out| == |rows|
    requires forall k :: 0 <= k < |df| ==> rows[k] == AddColumns(df[k])
    requires forall k :: 0 <= k < |rows| && k !in paired ==> out[k] == FillUnpaired(rows[k])
    ensures forall k :: 0 <= k < |df| && k !in paired ==>
      out[k].rec == df[k].rec &&
      (df[k].finalReajustado == Absent ==> out[k].finalReajustado == Num(0.0)) &&
      (df[k].finalReajustado == NaN ==> out[k].finalReajustado == Num(df[k].rec.recebeu)) &&
      (df[k].finalReajustado.Num? ==> out[k].finalReajustado == df[k].finalReajustado) &&
      out[k].ajusteTotal == (if df[k].finalReajustado == NaN || df[k].ajusteTotal == Absent then Num(0.0)
                             else df[k].ajusteTotal)
  {
    forall k | 0 <= k < |df| && k !in paired
      ensures out[k].rec == df[k].rec
      ensures df[k].finalReajustado == Absent ==> out[k].finalReajustado == Num(0.0)
      ensures df[k].finalReajustado == NaN ==> out[k].finalReajustado == Num(df[k].rec.recebeu)
      ensures df[k].finalReajustado.Num? ==> out[k].finalReajustado == df[k].finalReajustado
      ensures out[k].ajusteTotal == (if df[k].finalReajustado == NaN || df[k].ajusteTotal == Absent then Num(0.0)
                                     else df[k].ajusteTotal)
    {
      UnpairedAsWritten(df[k]);
    }
  }

  /** `parear_e_aplicar_rods` with the settlement columns created as the
      docstring at line 97 needs: every unpaired row ends with what it
      received and no adjustment, unless it already held a settlement. */
  method PairAndApplyCorrected(df: seq<Row>) returns (out: seq<Row>)
    ensures |out| == |df|
    ensures forall k :: 0 <= k < |df| ==> SameExceptSettlement(out[k], df[k])
    ensures forall k :: 0 <= k < |df| && k !in Paired(Records(df)) ==>
      out[k].rec == df[k].rec &&
      (df[k].finalReajustado.Num? ==> out[k] == df[k].(ajusteTotal := if df[k].ajusteTotal == Absent then Num(0.0) else df[k].ajusteTotal)) &&
      (!df[k].finalReajustado.Num? ==> out[k].finalReajustado == Num(df[k].rec.recebeu) && out[k].ajusteTotal == Num(0.0))
    ensures (forall k :: 0 <= k < |df| ==> Exclusive(df[k].rec)) ==>
      var ps := Pairs(Records(df));
      forall p :: 0 <= p < |ps| ==>
        out[ps[p].0] == SettlePair(df[ps[p].0], df[ps[p].1]).0 &&
        out[ps[p].1] == SettlePair(df[ps[p].0], df[ps[p].1]).1
    ensures (forall k :: 0 <= k < |df| ==> Exclusive(df[k].rec)) && RodsZero(df) ==>
      forall c :: RodSum(out, c) == 0.0
  {
    var rows := seq(|df|, k requires 0 <= k < |df| => AddColumnsIntended(df[k]));
    out := SettleRows(rows);
    CarrySettlement(df, rows, out);
    UnpairedRowsCorrected(df, rows, out, Paired(Records(rows)));
  }

  /** Every unpaired row, corrected, in the terms of `UnpairedCorrected`. */
  lemma UnpairedRowsCorrected(df: seq<Row>, rows: seq<Row>, out: seq<Row>, paired: set<nat>)
    requires |rows| == |df| && |out| == |rows|
    requires forall k :: 0 <= k < |df| ==> rows[k] == AddColumnsIntended(df[k])
    requires forall k :: 0 <= k < |rows| && k !in paired ==> out[k] == FillUnpaired(rows[k])
    ensures forall k :: 0 <= k < |df| && k !in paired ==>
      out[k].rec == df[k].rec &&
      (df[k].finalReajustado.Num? ==> out[k] == df[k].(ajusteTotal := if df[k].ajusteTotal == Absent then Num(0.0) else df[k].ajusteTotal)) &&
      (!df[k].finalReajustado.Num? ==> out[k].finalReajustado == Num(df[k].rec.recebeu) && out[k].ajusteTotal == Num(0.0))
  {
    forall k | 0 <= k < |df| && k !in paired
      ensures out[k].rec == df[k].rec
      ensures df[k].finalReajustado.Num? ==>
        out[k] == df[k].(ajusteTotal := if df[k].ajusteTotal == Absent then Num(0.0) else df[k].ajusteTotal)
      ensures !df[k].finalReajustado.Num? ==>
        out[k].finalReajustado == Num(df[k].rec.recebeu) && out[k].ajusteTotal == Num(0.0)
    {
      UnpairedCorrected(df[k]);
    }
  }

  /** A table with no shortfall anywhere pairs nothing. */
  lemma NoReceiverNoPairs(recs: seq<Record>)
    requires forall k :: 0 <= k < |recs| ==> recs[k].falta == 0.0
    ensures Paired(recs) == {}
  {
    var rs := IndicesOn(recs, Receiver);
    assert forall j :: 0 <= j < |rs| ==> rs[j] in rs;
  }

  /** As written, a prepared table (which has no `final_reajustado` column)
      leaves an unpaired row with `final_reajustado` 0.0: here the table's
      only row, B (100 sent, 120 received), has no receiver to pair with. */
  lemma UnpairedRowZeroedAsWritten()
    ensures var b := Row(ComputeDeviation(RawRow(Name("B"), Some(100.0), Some(120.0), Some(0.20))), Absent, Absent);
            0 !in Paired(Records([b])) &&
            FillUnpaired(AddColumns(b)).finalReajustado == Num(0.0) &&
            FillUnpaired(AddColumns(b)).ajusteTotal == Num(0.0) &&
            FillUnpaired(AddColumns(b)).finalReajustado != Num(b.rec.recebeu)
  {
    SurplusExample();
    AloneWithoutShortfall(ComputeDeviation(RawRow(Name("B"), Some(100.0), Some(120.0), Some(0.20))));
  }

  /** A fresh row without a shortfall, alone in its table, is unpaired and,
      as written, ends with `final_reajustado` and `ajuste_total` 0.0. */
  lemma AloneWithoutShortfall(r: Record)
    requires r.falta == 0.0
    ensures var b := Row(r, Absent, Absent);
            0 !in Paired(Records([b])) &&
            FillUnpaired(AddColumns(b)) == b.(finalReajustado := Num(0.0), ajusteTotal := Num(0.0))
  {
    var recs := Records([Row(r, Absent, Absent)]);
    assert recs == [r];
    NoReceiverNoPairs(recs);
  }
}
