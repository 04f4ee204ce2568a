/** next_unique_val: the next communicator id or colour for a new group,
    the first value not yet taken in an ordered set of ints. */
module Groups {

  /** A std::set<int> in iteration order: strictly increasing. */
  predicate StrictlyIncreasing(s: seq<int>) {
    forall i, j :: 0 <= i < j < |s| ==> s[i] < s[j]
  }

  /** The set is exactly {0, 1, .., |s|-1} with at least two members: the
      scan then runs off the end and dereferences s.end(), which is
      undefined behaviour, so callers must not pass such a set. */
  predicate Contiguous(s: seq<int>) {
    |s| >= 2 && forall i :: 0 <= i < |s| ==> s[i] == i
  }

  /** r is the least natural number missing from s. */
  predicate LeastMissing(s: seq<int>, r: int) {
    0 <= r && r !in s && forall k :: 0 <= k < r ==> k in s
  }

  /** Returns 0 for an empty set or one whose minimum is not 0, 1 for {0},
      and otherwise one more than the first member whose successor is
      missing. For sets of naturals this is the least natural not in s. */
  method NextUniqueVal(s: seq<int>) returns (r: int)
    requires StrictlyIncreasing(s) && !Contiguous(s)
    ensures s == [] || s[0] != 0 ==> r == 0
    ensures s == [0] ==> r == 1
    ensures (s == [] || s[0] >= 0) ==> LeastMissing(s, r)
  {
    if s == [] || s[0] != 0 {
      return 0;
    } else if |s| == 1 {
      return 1;
    }
    var prev := s[0];
    var i := 1;
    while i < |s|
      invariant 1 <= i <= |s| && prev == s[i - 1]
      invariant forall k :: 0 <= k < i ==> s[k] == k
    {
      if s[i] != prev + 1 {
        Prefix(s, i);
        return prev + 1;
      }
      prev := s[i];
      i := i + 1;
    }
    assert false;
  }

  /** When s starts 0, 1, .., i-1 and s[i] is not i, then i is the least
      natural missing from s. */
  lemma Prefix(s: seq<int>, i: nat)
    requires StrictlyIncreasing(s) && 0 < i < |s|
    requires forall k :: 0 <= k < i ==> s[k] == k
    requires s[i] != i
    ensures LeastMissing(s, i)
  {
    assert s[i] > i by {
      assert s[i] > s[i - 1];
    }
    forall k | 0 <= k < |s|
      ensures s[k] != i
    {
      if k > i {
        assert s[k] > s[i];
      }
    }
    forall k | 0 <= k < i
      ensures k in s
    {
      assert s[k] == k;
    }
  }

  /** The least missing natural is unique, so NextUniqueVal's result is
      determined by its contract for every set of naturals. */
  lemma LeastMissingUnique(s: seq<int>, a: int, b: int)
    requires LeastMissing(s, a) && LeastMissing(s, b)
    ensures a == b
  {
  }

  /** The example of the source comment: <0,1,2,7> gives 3. */
  lemma CommentExample()
    ensures StrictlyIncreasing([0, 1, 2, 7]) && !Contiguous([0, 1, 2, 7])
    ensures LeastMissing([0, 1, 2, 7], 3)
  {
    var s := [0, 1, 2, 7];
    assert s[3] != 3;
    assert s[0] == 0 && s[1] == 1 && s[2] == 2;
  }
}

