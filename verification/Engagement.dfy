/**
 * A commentator's engagement with a feed: how many of the feed's statuses they
 * commented on, how many comments and likes they left on its statuses, and the
 * two ratios over the feed's status count.  Ratios are kept as an integer
 * numerator and denominator.
 */
module Engagement {
  import opened Wrappers
  import opened Records
  import opened Strings

  /** The ids of a sequence of statuses. */
  function StatusIds(statuses: seq<Status>): (ids: set<string>)
    ensures forall i :: 0 <= i < |statuses| ==> statuses[i].statusId in ids
    ensures forall id :: id in ids ==> exists i :: 0 <= i < |statuses| && statuses[i].statusId == id
    ensures |ids| <= |statuses|
  {
    if statuses == [] then {}
    else
      var init := statuses[..|statuses| - 1];
      assert forall i :: 0 <= i < |init| ==> init[i] == statuses[i];
      StatusIds(init) + {statuses[|statuses| - 1].statusId}
  }

  /** No two statuses share an id (a feed's status set). */
  predicate DistinctIds(statuses: seq<Status>)
  {
    forall i, j :: 0 <= i < j < |statuses| ==> statuses[i].statusId != statuses[j].statusId
  }

  /** The number of entries of `ids` that lie in `targets` (a filtered `count()`). */
  function CountIn(ids: seq<string>, targets: set<string>): (n: nat)
    ensures n <= |ids|
    ensures n == 0 <==> forall i :: 0 <= i < |ids| ==> ids[i] !in targets
  {
    if ids == [] then 0
    else
      assert forall i :: 1 <= i < |ids| ==> ids[i] == ids[1..][i - 1];
      (if ids[0] in targets then 1 else 0) + CountIn(ids[1..], targets)
  }

  /** The commentator wrote at least one comment on the status. */
  predicate IsStatusCommentedOnByCommentator(commentator: Commentator, status: Status)
  {
    status.statusId in commentator.commentParents
  }

  /**
   * The statuses, in order, that the commentator commented on: each commented status
   * as often as the list holds it, and no other.
   */
  function CommentedStatuses(commentator: Commentator, statuses: seq<Status>): (r: seq<Status>)
    ensures |r| <= |statuses|
    ensures forall s :: s in r <==> s in statuses && IsStatusCommentedOnByCommentator(commentator, s)
  {
    if statuses == [] then []
    else
      var last := statuses[|statuses| - 1];
      var init := statuses[..|statuses| - 1];
      assert statuses == init + [last];
      CommentedStatuses(commentator, init) + (if IsStatusCommentedOnByCommentator(commentator, last) then [last] else [])
  }

  /**
   * The filter keeps multiplicities: a commented status occurs in it as often as in
   * the statuses, any other status not at all.
   */
  lemma {:induction false} CommentedStatusesMultiplicity(commentator: Commentator, statuses: seq<Status>, s: Status)
    ensures multiset(CommentedStatuses(commentator, statuses))[s]
      == if IsStatusCommentedOnByCommentator(commentator, s) then multiset(statuses)[s] else 0
    decreases |statuses|
  {
    if statuses != [] {
      var last := statuses[|statuses| - 1];
      var init := statuses[..|statuses| - 1];
      assert statuses == init + [last];
      assert multiset(statuses) == multiset(init) + multiset{last};
      CommentedStatusesMultiplicity(commentator, init, s);
    }
  }

  /**
   * Walks the feed's statuses adding one for each the commentator commented on: the
   * number of commented statuses, never more than the feed holds.
   */
  method NumberOfCommentedOnStatusesForFeed(commentator: Commentator, feed: Feed) returns (count: nat)
    ensures count == |CommentedStatuses(commentator, feed.statuses)|
    ensures count <= |feed.statuses|
  {
    var statuses := feed.statuses;
    count := 0;
    var i := 0;
    while i < |statuses|
      invariant 0 <= i <= |statuses|
      invariant count == |CommentedStatuses(commentator, statuses[..i])|
    {
      CommentedStatusesStep(commentator, statuses, i);
      count := count + (if IsStatusCommentedOnByCommentator(commentator, statuses[i]) then 1 else 0);
      i := i + 1;
    }
    assert statuses[..i] == statuses;
  }

  /** Extending a prefix of the statuses by one adds that status when it was commented on. */
  lemma CommentedStatusesStep(commentator: Commentator, statuses: seq<Status>, i: int)
    requires 0 <= i < |statuses|
    ensures |CommentedStatuses(commentator, statuses[..i + 1])| ==
      |CommentedStatuses(commentator, statuses[..i])| + (if IsStatusCommentedOnByCommentator(commentator, statuses[i]) then 1 else 0)
  {
    assert statuses[..i + 1][..i] == statuses[..i];
  }

  /** How often each status's id occurs among `ids`, summed over the statuses. */
  function SumOccurrences(ids: seq<string>, statuses: seq<Status>): nat
  {
    if statuses == [] then 0
    else SumOccurrences(ids, statuses[..|statuses| - 1]) + multiset(ids)[statuses[|statuses| - 1].statusId]
  }

  /** Counting the entries equal to one id is that id's multiplicity. */
  lemma {:induction false} CountInSingleton(ids: seq<string>, x: string)
    ensures CountIn(ids, {x}) == multiset(ids)[x]
    decreases |ids|
  {
    if ids != [] {
      assert ids == [ids[0]] + ids[1..];
      assert multiset(ids) == multiset{ids[0]} + multiset(ids[1..]);
      CountInSingleton(ids[1..], x);
    }
  }

  /**
   * Over statuses with distinct ids, the entries of `ids` that name one of them are
   * the sum, status by status, of how often its id occurs.
   */
  lemma {:induction false} CountInIsSum(ids: seq<string>, statuses: seq<Status>)
    requires DistinctIds(statuses)
    ensures CountIn(ids, StatusIds(statuses)) == SumOccurrences(ids, statuses)
    decreases |statuses|
  {
    if statuses != [] {
      var last := statuses[|statuses| - 1];
      var init := statuses[..|statuses| - 1];
      assert DistinctIds(init);
      CountInIsSum(ids, init);
      assert last.statusId !in StatusIds(init);
      assert StatusIds(statuses) == StatusIds(init) + {last.statusId};
      CountInDisjointUnion(ids, StatusIds(init), {last.statusId});
      CountInSingleton(ids, last.statusId);
    }
  }

  /**
   * The commentator's comments whose parent is one of the statuses: over statuses
   * with distinct ids, the sum of the commentator's comments on each.
   */
  function NumberOfCommentsOnStatuses(commentator: Commentator, statuses: seq<Status>): (n: nat)
    ensures n <= |commentator.commentParents|
    ensures n == 0 <==> forall s :: s in statuses ==> !IsStatusCommentedOnByCommentator(commentator, s)
    ensures DistinctIds(statuses) ==> n == SumOccurrences(commentator.commentParents, statuses)
  {
    var ids := StatusIds(statuses);
    assert forall s :: s in statuses ==> s.statusId in ids;
    assert forall i :: 0 <= i < |commentator.commentParents| && commentator.commentParents[i] in ids ==>
      exists j :: 0 <= j < |statuses| && IsStatusCommentedOnByCommentator(commentator, statuses[j]);
    assert DistinctIds(statuses) ==> CountIn(commentator.commentParents, ids) == SumOccurrences(commentator.commentParents, statuses) by {
      if DistinctIds(statuses) {
        CountInIsSum(commentator.commentParents, statuses);
      }
    }
    CountIn(commentator.commentParents, ids)
  }

  /**
   * The commentator's likes on one of the statuses: over statuses with distinct ids,
   * the sum of the commentator's likes on each.
   */
  function NumberOfLikesOnStatuses(commentator: Commentator, statuses: seq<Status>): (n: nat)
    ensures n <= |commentator.likedStatuses|
    ensures n == 0 <==> forall s :: s in statuses ==> s.statusId !in commentator.likedStatuses
    ensures DistinctIds(statuses) ==> n == SumOccurrences(commentator.likedStatuses, statuses)
  {
    var ids := StatusIds(statuses);
    assert forall s :: s in statuses ==> s.statusId in ids;
    assert DistinctIds(statuses) ==> CountIn(commentator.likedStatuses, ids) == SumOccurrences(commentator.likedStatuses, statuses) by {
      if DistinctIds(statuses) {
        CountInIsSum(commentator.likedStatuses, statuses);
      }
    }
    CountIn(commentator.likedStatuses, ids)
  }

  /** On a single status the comment count is the number of the commentator's comments under it. */
  lemma CommentsOnOneStatus(commentator: Commentator, status: Status)
    ensures NumberOfCommentsOnStatuses(commentator, [status]) == multiset(commentator.commentParents)[status.statusId]
  {
    assert [status][..0] == [];
    assert DistinctIds([status]);
    assert SumOccurrences(commentator.commentParents, [status])
      == SumOccurrences(commentator.commentParents, []) + multiset(commentator.commentParents)[status.statusId];
  }

  /**
   * The commentator liked the given status (`commentator_also_liked_status` and
   * COMMENTATOR_LIKED_POST): exactly when their like count on that status alone is
   * not zero.
   */
  function LikedStatus(commentator: Commentator, status: Status): (liked: bool)
    ensures liked <==> NumberOfLikesOnStatuses(commentator, [status]) > 0
  {
    status.statusId in commentator.likedStatuses
  }

  /**
   * The total comment count over the statuses.  With `GetNumberOfCommentsConcat`
   * the empty and one-status cases determine it for every list.
   */
  function GetNumberOfComments(statuses: seq<Status>): (n: nat)
    ensures forall i :: 0 <= i < |statuses| ==> statuses[i].numComments <= n
    ensures statuses == [] ==> n == 0
    ensures |statuses| == 1 ==> n == statuses[0].numComments
  {
    if statuses == [] then 0
    else
      var last := statuses[|statuses| - 1];
      var init := statuses[..|statuses| - 1];
      assert forall i :: 0 <= i < |init| ==> init[i] == statuses[i];
      GetNumberOfComments(init) + last.numComments
  }

  /** Comment totals add up over concatenated status lists. */
  lemma {:induction false} GetNumberOfCommentsConcat(a: seq<Status>, b: seq<Status>)
    ensures GetNumberOfComments(a + b) == GetNumberOfComments(a) + GetNumberOfComments(b)
    decreases |b|
  {
    if b == [] {
      assert a + b == a;
    } else {
      var binit := b[..|b| - 1];
      assert (a + b)[..|a + b| - 1] == a + binit;
      GetNumberOfCommentsConcat(a, binit);
    }
  }

  /** A ratio as an integer numerator over a positive denominator. */
  datatype Ratio = Ratio(num: nat, den: nat)

  /**
   * The share of the feed's statuses the commentator commented on; a feed without
   * statuses makes the division fail.  When defined the ratio lies in [0, 1].
   */
  function RatioOfCommentedStatusesForFeed(commentator: Commentator, feed: Feed): (r: Result<Ratio, ExportError>)
    ensures r.Failure? <==> |feed.statuses| == 0
    ensures r.Failure? ==> r.error == ZeroDivision
    ensures r.Success? ==> r.value.den == |feed.statuses| > 0 && r.value.num <= r.value.den
    ensures r.Success? ==> r.value.num == |CommentedStatuses(commentator, feed.statuses)|
  {
    var count := |CommentedStatuses(commentator, feed.statuses)|;
    if |feed.statuses| == 0 then Failure(ZeroDivision) else Success(Ratio(count, |feed.statuses|))
  }

  /** The commentator's likes on the feed per status of the feed; fails on a feed without statuses. */
  function RatioOfLikesForFeed(commentator: Commentator, feed: Feed): (r: Result<Ratio, ExportError>)
    ensures r.Failure? <==> |feed.statuses| == 0
    ensures r.Failure? ==> r.error == ZeroDivision
    ensures r.Success? ==> r.value.den == |feed.statuses| > 0
    ensures r.Success? ==> r.value.num == NumberOfLikesOnStatuses(commentator, feed.statuses)
  {
    if |feed.statuses| == 0 then Failure(ZeroDivision)
    else Success(Ratio(NumberOfLikesOnStatuses(commentator, feed.statuses), |feed.statuses|))
  }

  /** Counting over two disjoint target sets adds up. */
  lemma {:induction false} CountInDisjointUnion(ids: seq<string>, a: set<string>, b: set<string>)
    requires a !! b
    ensures CountIn(ids, a + b) == CountIn(ids, a) + CountIn(ids, b)
    decreases |ids|
  {
    if ids != [] {
      CountInDisjointUnion(ids[1..], a, b);
    }
  }

  /** A target that does not occur in `ids` can be dropped from the target set. */
  lemma {:induction false} CountInDropAbsent(ids: seq<string>, targets: set<string>, x: string)
    requires x !in ids
    ensures CountIn(ids, targets) == CountIn(ids, targets - {x})
    decreases |ids|
  {
    if ids != [] {
      assert ids[0] != x;
      assert x !in ids[1..];
      CountInDropAbsent(ids[1..], targets, x);
    }
  }

  /** Duplicate-free entries can hit each target at most once. */
  lemma {:induction false} CountInDistinct(ids: seq<string>, targets: set<string>)
    requires NoDuplicates(ids)
    ensures CountIn(ids, targets) <= |targets|
    decreases |ids|
  {
    if ids != [] {
      var x := ids[0];
      var rest := ids[1..];
      assert NoDuplicates(rest);
      assert x !in rest;
      CountInDistinct(rest, targets - {x});
      CountInDropAbsent(rest, targets, x);
    }
  }

  /**
   * Every commented status carries at least one of the commentator's comments, so
   * over a feed's distinct statuses the number of commented statuses never exceeds
   * the number of comments the commentator wrote on the feed.
   */
  lemma {:induction false} CommentedStatusesAtMostComments(commentator: Commentator, statuses: seq<Status>)
    requires DistinctIds(statuses)
    ensures |CommentedStatuses(commentator, statuses)| <= NumberOfCommentsOnStatuses(commentator, statuses)
    decreases |statuses|
  {
    if statuses != [] {
      var last := statuses[|statuses| - 1];
      var init := statuses[..|statuses| - 1];
      assert DistinctIds(init);
      CommentedStatusesAtMostComments(commentator, init);
      assert last.statusId !in StatusIds(init);
      assert StatusIds(statuses) == StatusIds(init) + {last.statusId};
      CountInDisjointUnion(commentator.commentParents, StatusIds(init), {last.statusId});
      if IsStatusCommentedOnByCommentator(commentator, last) {
        assert CountIn(commentator.commentParents, {last.statusId}) != 0;
      }
    }
  }

  /**
   * When a commentator likes each status at most once, the likes ratio also lies in
   * [0, 1].
   */
  lemma LikesRatioAtMostOne(commentator: Commentator, feed: Feed)
    requires NoDuplicates(commentator.likedStatuses)
    requires |feed.statuses| > 0
    ensures RatioOfLikesForFeed(commentator, feed).value.num <= RatioOfLikesForFeed(commentator, feed).value.den
  {
    CountInDistinct(commentator.likedStatuses, StatusIds(feed.statuses));
  }
}
