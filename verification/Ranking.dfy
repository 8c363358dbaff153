/**
 Winner selection over a recomputed table: the winning row is the first one
 holding the largest total (first-occurrence arg-max), and the reported score
 is the largest total of the column. An empty table has no winner.
 */
module Ranking {
  import opened Bidders

  datatype Outcome = NoWinner | Winner(name: string, score: real)

  /** k is the earliest position holding a maximal value of s. */
  predicate IsFirstMax(s: seq<real>, k: int) {
    && 0 <= k < |s|
    && (forall j :: 0 <= j < |s| ==> s[j] <= s[k])
    && (forall j :: 0 <= j < k ==> s[j] < s[k])
  }

  /** Position of the first maximum of a non-empty sequence. */
  function FirstMaxIndex(s: seq<real>): (k: nat)
    requires |s| > 0
    ensures IsFirstMax(s, k)
  {
    if |s| == 1 then 0
    else
      var k := FirstMaxIndex(s[1..]);
      assert forall j :: 1 <= j < |s| ==> s[j] == s[1..][j - 1];
      if s[0] >= s[k + 1] then 0 else k + 1
  }

  /** Largest value of a non-empty sequence. */
  function SeqMax(s: seq<real>): (m: real)
    requires |s| > 0
    ensures m in s
    ensures forall j :: 0 <= j < |s| ==> s[j] <= m
  {
    if |s| == 1 then s[0]
    else
      var rest := SeqMax(s[1..]);
      assert forall j :: 1 <= j < |s| ==> s[j] == s[1..][j - 1];
      if s[0] >= rest then s[0] else rest
  }

  /** The first maximum is unique: the tie-break is deterministic. */
  lemma FirstMaxUnique(s: seq<real>, k1: int, k2: int)
    requires IsFirstMax(s, k1) && IsFirstMax(s, k2)
    ensures k1 == k2
  {
    assert s[k1] == s[k2];
  }

  /** The winner of a table: the name on the first row with the largest total,
      reported with the largest total of the column. */
  function Rank(rows: seq<Bidder>): (o: Outcome)
    ensures o == NoWinner <==> |rows| == 0
    ensures o.Winner? ==>
              exists k :: IsFirstMax(Totals(rows), k) && o.name == rows[k].name && o.score == rows[k].total
    ensures o.Winner? ==> forall j :: 0 <= j < |rows| ==> rows[j].total <= o.score
  {
    if |rows| == 0 then
      NoWinner
    else
      var ts := Totals(rows);
      var k := FirstMaxIndex(ts);
      var best := SeqMax(ts);
      assert ts[k] <= best;
      Winner(rows[k].name, best)
  }

  /** The winner is exactly the row at the first maximum: any row placed before
      it has a strictly smaller total. */
  lemma RankEarliestOnTie(rows: seq<Bidder>, k: nat)
    requires IsFirstMax(Totals(rows), k)
    ensures Rank(rows) == Winner(rows[k].name, rows[k].total)
    ensures forall j :: 0 <= j < k ==> rows[j].total < Rank(rows).score
  {
  }
}
