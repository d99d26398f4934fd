/** The sector scorecard: a fixed table of ratings shown best first. */
module Scorecard {
  import opened Sequences

  /** One sector's ratings. */
  datatype SectorRating = SectorRating(
    sector: string,
    macroResilience: int,
    policySupport: int,
    exportScale: int,
    overall: real)

  const Healthcare := SectorRating("Healthcare & Life Sciences (Health 2030)", 9, 9, 7, 8.5)
  const Aerospace := SectorRating("Aerospace & Défense", 8, 8, 9, 8.5)
  const Luxury := SectorRating("Luxury & High-End Tourism", 6, 7, 9, 7.5)
  const AgriFood := SectorRating("Agri-Food Tech", 8, 8, 7, 7.8)

  /** The table as written, before sorting. */
  const Literal: seq<SectorRating> := [Healthcare, Aerospace, Luxury, AgriFood]

  /** Sorting ascending by this key is sorting descending by `Overall`. */
  function DescendingOverall(r: SectorRating): real {
    -r.overall
  }

  /** `sort_values("Overall", ascending=False)`. */
  function SortByOverallDescending(table: seq<SectorRating>): (rows: seq<SectorRating>)
    ensures multiset(rows) == multiset(table)
    ensures forall i, j :: 0 <= i < j < |rows| ==> rows[i].overall >= rows[j].overall
  {
    var rows := SortBy(table, DescendingOverall);
    assert forall i, j :: 0 <= i < j < |rows| ==> DescendingOverall(rows[i]) <= DescendingOverall(rows[j]);
    rows
  }

  /** The scorecard as displayed: the literal table, best `Overall` first. */
  function Scorecard(): (rows: seq<SectorRating>)
  {
    SortByOverallDescending(Literal)
  }

  /**
   Any ordering of the literal table that is non-increasing by `Overall`
   ranks Agri-Food Tech third and Luxury fourth, with Healthcare and
   Aerospace (tied at 8.5) in the first two places in some order.
   */
  lemma RankingOfAnySortedScorecard(rows: seq<SectorRating>)
    requires multiset(rows) == multiset(Literal)
    requires forall i, j :: 0 <= i < j < |rows| ==> rows[i].overall >= rows[j].overall
    ensures |rows| == 4
    ensures rows[2] == AgriFood && rows[3] == Luxury
    ensures multiset{rows[0], rows[1]} == multiset{Healthcare, Aerospace}
  {
    LuxuryLast(rows);
    AgriFoodThird(rows);
    LeadersAreTheRest(rows);
  }

  lemma LeadersAreTheRest(rows: seq<SectorRating>)
    requires multiset(rows) == multiset(Literal)
    requires |rows| == 4 && rows[2] == AgriFood && rows[3] == Luxury
    ensures multiset{rows[0], rows[1]} == multiset{Healthcare, Aerospace}
  {
    assert multiset(Literal) == multiset{Healthcare, Aerospace} + multiset{AgriFood, Luxury};
    assert rows == [rows[0], rows[1], AgriFood, Luxury];
    assert multiset(rows) == multiset{rows[0], rows[1]} + multiset{AgriFood, Luxury};
  }

  /** Each entry of a reordering of the literal table is one of its four sectors. */
  lemma EntriesAreSectors(rows: seq<SectorRating>)
    requires multiset(rows) == multiset(Literal)
    ensures |rows| == 4
    ensures forall i :: 0 <= i < 4 ==> rows[i] in Literal
  {
    assert |rows| == |multiset(rows)| == 4;
    forall i | 0 <= i < 4 ensures rows[i] in Literal {
      assert rows[i] in multiset(rows);
    }
  }

  /** The lowest `Overall` (Luxury, 7.5) comes last. */
  lemma LuxuryLast(rows: seq<SectorRating>)
    requires multiset(rows) == multiset(Literal)
    requires forall i, j :: 0 <= i < j < |rows| ==> rows[i].overall >= rows[j].overall
    ensures |rows| == 4 && rows[3] == Luxury
  {
    EntriesAreSectors(rows);
    assert Luxury in multiset(rows);
    var m :| 0 <= m < 4 && rows[m] == Luxury;
    assert rows[3].overall <= 7.5;
  }

  /** The next lowest (Agri-Food Tech, 7.8) comes third. */
  lemma AgriFoodThird(rows: seq<SectorRating>)
    requires multiset(rows) == multiset(Literal)
    requires forall i, j :: 0 <= i < j < |rows| ==> rows[i].overall >= rows[j].overall
    ensures |rows| == 4 && rows[2] == AgriFood
  {
    EntriesAreSectors(rows);
    LuxuryLast(rows);
    assert AgriFood in multiset(rows);
    var m :| 0 <= m < 4 && rows[m] == AgriFood;
    assert m != 3;
    assert rows[2].overall <= 7.8;
  }

  /** The scorecard ranks the sectors as above. */
  lemma ScorecardRanking()
    ensures |Scorecard()| == 4
    ensures Scorecard()[2] == AgriFood && Scorecard()[3] == Luxury
    ensures multiset{Scorecard()[0], Scorecard()[1]} == multiset{Healthcare, Aerospace}
  {
    var rows := Scorecard();
    assert multiset(rows) == multiset(Literal);
    RankingOfAnySortedScorecard(rows);
  }
}
