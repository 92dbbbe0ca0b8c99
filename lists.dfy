/**
 * Array.prototype.filter and slice(0, end), the two list operations the views and the
 * dashboard apply to the task list.
 */
module Lists {

  /** s.filter(p): the elements satisfying p, in their original order. */
  function Filter<T>(s: seq<T>, p: T -> bool): (r: seq<T>)
    ensures |r| <= |s|
    ensures forall i :: 0 <= i < |r| ==> p(r[i])
  {
    if |s| == 0 then []
    else (if p(s[0]) then [s[0]] else []) + Filter(s[1..], p)
  }

  /** Filtering distributes over concatenation, so it keeps the order of what it keeps. */
  lemma {:induction false} FilterAppend<T>(a: seq<T>, b: seq<T>, p: T -> bool)
    ensures Filter(a + b, p) == Filter(a, p) + Filter(b, p)
  {
    if |a| > 0 {
      assert (a + b)[1..] == a[1..] + b;
      FilterAppend(a[1..], b, p);
    } else {
      assert a + b == b;
    }
  }

  /** Everything that satisfies p survives the filter. */
  lemma {:induction false} FilterKeeps<T>(s: seq<T>, p: T -> bool, i: nat)
    requires i < |s| && p(s[i])
    ensures s[i] in Filter(s, p)
  {
    if i > 0 {
      FilterKeeps(s[1..], p, i - 1);
    }
  }

  /** A filter that every element passes changes nothing. */
  lemma {:induction false} FilterAll<T>(s: seq<T>, p: T -> bool)
    requires forall i :: 0 <= i < |s| ==> p(s[i])
    ensures Filter(s, p) == s
  {
    if |s| > 0 {
      FilterAll(s[1..], p);
    }
  }

  /** The pass/fail flags of p along s. */
  function Flags<T>(s: seq<T>, p: T -> bool): (f: seq<bool>)
    ensures |f| == |s|
    ensures forall i :: 0 <= i < |s| ==> f[i] == p(s[i])
  {
    if |s| == 0 then [] else [p(s[0])] + Flags(s[1..], p)
  }

  /**
   * Deals elements back into one sequence: the next element of `yes` where the flag is
   * set, the next of `no` where it is not.
   */
  function Interleave<T>(flags: seq<bool>, yes: seq<T>, no: seq<T>): seq<T>
  {
    if |flags| == 0 then []
    else if flags[0] && |yes| > 0 then [yes[0]] + Interleave(flags[1..], yes[1..], no)
    else if !flags[0] && |no| > 0 then [no[0]] + Interleave(flags[1..], yes, no[1..])
    else []
  }

  /** s.filter(x => !p(x)): the elements p rejects, in their original order. */
  function Reject<T>(s: seq<T>, p: T -> bool): (r: seq<T>)
    ensures |r| <= |s|
    ensures forall i :: 0 <= i < |r| ==> !p(r[i])
  {
    if |s| == 0 then []
    else (if p(s[0]) then [] else [s[0]]) + Reject(s[1..], p)
  }

  /** Rejecting distributes over concatenation, so it keeps the order of what it keeps. */
  lemma {:induction false} RejectAppend<T>(a: seq<T>, b: seq<T>, p: T -> bool)
    ensures Reject(a + b, p) == Reject(a, p) + Reject(b, p)
  {
    if |a| > 0 {
      assert (a + b)[1..] == a[1..] + b;
      RejectAppend(a[1..], b, p);
    } else {
      assert a + b == b;
    }
  }

  /** Everything p does not hold of survives the rejection. */
  lemma {:induction false} RejectKeeps<T>(s: seq<T>, p: T -> bool, i: nat)
    requires i < |s| && !p(s[i])
    ensures s[i] in Reject(s, p)
  {
    if i > 0 {
      RejectKeeps(s[1..], p, i - 1);
    }
  }

  /** Rejecting keeps only elements of the original sequence. */
  lemma {:induction false} RejectSubset<T>(s: seq<T>, p: T -> bool)
    ensures forall x :: x in Reject(s, p) ==> x in s
  {
    if |s| > 0 {
      RejectSubset(s[1..], p);
      assert Reject(s, p) == (if p(s[0]) then [] else [s[0]]) + Reject(s[1..], p);
      assert forall x :: x in s[1..] ==> x in s;
    }
  }

  /** Rejecting what nothing satisfies changes nothing. */
  lemma {:induction false} RejectNone<T>(s: seq<T>, p: T -> bool)
    requires forall i :: 0 <= i < |s| ==> !p(s[i])
    ensures Reject(s, p) == s
  {
    if |s| > 0 {
      RejectNone(s[1..], p);
    }
  }

  /**
   * filter(p) and filter(not p) split s into two parts that, dealt back by the flags,
   * rebuild s: each part keeps the original order and nothing is lost or duplicated.
   */
  lemma {:induction false} FilterPartition<T>(s: seq<T>, p: T -> bool)
    ensures Interleave(Flags(s, p), Filter(s, p), Reject(s, p)) == s
  {
    if |s| > 0 {
      FilterPartition(s[1..], p);
      InterleaveStep(s[0], p(s[0]), Flags(s[1..], p), Filter(s[1..], p), Reject(s[1..], p));
      assert Flags(s, p) == [p(s[0])] + Flags(s[1..], p);
      assert Filter(s, p) == (if p(s[0]) then [s[0]] else []) + Filter(s[1..], p);
      assert Reject(s, p) == (if p(s[0]) then [] else [s[0]]) + Reject(s[1..], p);
      assert s == [s[0]] + s[1..];
    }
  }

  /** Dealing one more element, flagged b, onto the front of the part b names. */
  lemma InterleaveStep<T>(x: T, b: bool, flags: seq<bool>, yes: seq<T>, no: seq<T>)
    ensures Interleave([b] + flags, (if b then [x] else []) + yes, (if b then [] else [x]) + no)
            == [x] + Interleave(flags, yes, no)
  {
    var f := [b] + flags;
    assert f[0] == b && f[1..] == flags;
    if b {
      assert ([x] + yes)[0] == x && ([x] + yes)[1..] == yes;
      assert ([] + no) == no;
    } else {
      assert ([x] + no)[0] == x && ([x] + no)[1..] == no;
      assert ([] + yes) == yes;
    }
  }

  /** The two parts of the partition hold, between them, every element exactly once. */
  lemma {:induction false} FilterPartitionCounts<T>(s: seq<T>, p: T -> bool)
    ensures |Filter(s, p)| + |Reject(s, p)| == |s|
    ensures multiset(Filter(s, p)) + multiset(Reject(s, p)) == multiset(s)
  {
    if |s| > 0 {
      FilterPartitionCounts(s[1..], p);
      DealOne(s[0], p(s[0]), Filter(s[1..], p), Reject(s[1..], p), s[1..]);
      assert s == [s[0]] + s[1..];
    }
  }

  /** One more element, put into either part, adds itself once to the parts' total. */
  lemma DealOne<T>(x: T, b: bool, yes: seq<T>, no: seq<T>, rest: seq<T>)
    requires |yes| + |no| == |rest| && multiset(yes) + multiset(no) == multiset(rest)
    ensures var yes', no' := (if b then [x] else []) + yes, (if b then [] else [x]) + no;
            |yes'| + |no'| == |rest| + 1 && multiset(yes') + multiset(no') == multiset([x] + rest)
  {
    assert multiset([x] + rest) == multiset([x]) + multiset(rest);
    if b {
      assert multiset([x] + yes) == multiset([x]) + multiset(yes);
      assert [] + no == no;
    } else {
      assert multiset([x] + no) == multiset([x]) + multiset(no);
      assert [] + yes == yes;
    }
  }

  /**
   * s.slice(0, end) for an integer end: a negative end counts back from the length and
   * bottoms out at 0, an end past the length stops at the length.
   */
  function SliceTo<T>(s: seq<T>, end: int): (r: seq<T>)
    ensures r <= s
    ensures 0 <= end ==> |r| == if end < |s| then end else |s|
    ensures end < 0 ==> |r| == if |s| + end > 0 then |s| + end else 0
  {
    var stop := if end < 0 then (if |s| + end > 0 then |s| + end else 0)
                else if end < |s| then end else |s|;
    s[..stop]
  }
}
