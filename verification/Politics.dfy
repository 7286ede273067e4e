/**
 * Static classification tables of the second-stage export: the party-id to
 * political-wing table and the feed-id role tables (PM, PM contender, party leader).
 */
module Politics {
  import opened Wrappers

  /** The coarse ideological category of a party. */
  datatype Wing = Right | Center | Left | Arab | Charedi

  /** The party ids listed for each wing, in the order the classifier tests them. */
  function WingParties(w: Wing): seq<int>
  {
    match w
    case Right => [30, 31, 27, 14, 17]
    case Center => [32, 15, 21, 25, 29]
    case Left => [33, 16, 20, 28]
    case Arab => [35, 10, 22]
    case Charedi => [34, 36, 18, 19]
  }

  /** The text written into the POLITICAL_WING column. */
  function WingName(w: Wing): (s: string)
    ensures |s| > 0
  {
    match w
    case Right => "RIGHT"
    case Center => "CENTER"
    case Left => "LEFT"
    case Arab => "ARAB"
    case Charedi => "CHAREDI"
  }

  /**
   * The wing of a party, testing RIGHT, CENTER, LEFT, ARAB, CHAREDI in turn; an id
   * in no list has no classification.  Because the lists are pairwise disjoint the
   * order of the tests does not matter: a wing is returned exactly when the id is
   * in that wing's list.
   */
  function GetPoliticalWing(partyId: int): (r: Option<Wing>)
    ensures forall w: Wing :: r == Some(w) <==> partyId in WingParties(w)
    ensures r == None <==> forall w: Wing :: partyId !in WingParties(w)
  {
    if partyId in WingParties(Right) then Some(Right)
    else if partyId in WingParties(Center) then Some(Center)
    else if partyId in WingParties(Left) then Some(Left)
    else if partyId in WingParties(Arab) then Some(Arab)
    else if partyId in WingParties(Charedi) then Some(Charedi)
    else None
  }

  /** No party id is listed under two different wings. */
  lemma WingTablesDisjoint(partyId: int, w1: Wing, w2: Wing)
    requires partyId in WingParties(w1) && partyId in WingParties(w2)
    ensures w1 == w2
  {
    var r := GetPoliticalWing(partyId);
    assert r == Some(w1) && r == Some(w2);
  }

  /** One party of each wing, and ids listed under no wing. */
  lemma WingExamples()
    ensures GetPoliticalWing(31) == Some(Right) && WingName(Right) == "RIGHT"
    ensures GetPoliticalWing(32) == Some(Center) && WingName(Center) == "CENTER"
    ensures GetPoliticalWing(33) == Some(Left) && WingName(Left) == "LEFT"
    ensures GetPoliticalWing(35) == Some(Arab) && WingName(Arab) == "ARAB"
    ensures GetPoliticalWing(34) == Some(Charedi) && WingName(Charedi) == "CHAREDI"
  {
  }

  /** Ids outside every wing list have no wing. */
  lemma UnlistedParties()
    ensures GetPoliticalWing(0) == None && GetPoliticalWing(11) == None && GetPoliticalWing(37) == None
  {
  }

  /** The feeds of current or past party leaders. */
  const PartyLeaderFeeds: seq<int> :=
    [53, 109, 141, 138, 4, 52, 80, 20, 51, 40, 79, 54, 14, 35, 30, 73, 12, 22, 89, 44]

  /** The feeds of current or past PM contenders (Lapid, Herzog, Yachimovich, Livni). */
  const PmContenderFeeds: seq<int> := [14, 12, 51, 4]

  /** The PM's feed; a PM feed is also a party leader's feed. */
  function IsPm(feedId: int): (b: bool)
    ensures b ==> feedId in PartyLeaderFeeds
    ensures b ==> feedId !in PmContenderFeeds
  {
    feedId == 30
  }

  /** A current or past PM contender's feed; every contender also leads or led a party. */
  function IsPmContender(feedId: int): (b: bool)
    ensures b ==> feedId in PartyLeaderFeeds
    ensures b ==> !IsPm(feedId)
  {
    feedId in PmContenderFeeds
  }

  /** A current or past party leader's feed: implied by both the PM and the contender flag. */
  function IsPartyLeader(feedId: int): (b: bool)
    ensures IsPm(feedId) ==> b
    ensures IsPmContender(feedId) ==> b
  {
    feedId in PartyLeaderFeeds
  }
}
