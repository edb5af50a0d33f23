/**
  The two public planners (crates/coordinator/src/merge.rs, lines 410-693 and 695-856): all merge
  opportunities, and the first one only; and when the second is the head of the first.
  The excluded list is fixed to empty, as its only caller passes it.
*/
module MergePlanner {
  import opened Wrappers
  import opened PowersOfTwo
  import opened SplitTree
  import opened Proofs
  import opened TopDownPlanner
  import opened BottomUpPlanner

  /** The list `find_all_proofs_to_merge` returns. */
  function AllMerges(pc: ProofCalculation, now: nat): seq<MergeRequest>
    requires StartsInBlock(pc)
  {
    if pc.isFinished then []
    else if pc.endSequence.Some? then
      Requests(PlanRanges(pc, now, pc.startSequence, pc.endSequence.value), pc.startSequence, pc.endSequence.value)
    else BottomUpRequests(pc, now)
  }

  method FindAllProofsToMerge(pc: ProofCalculation, now: nat) returns (r: seq<MergeRequest>)
    requires StartsInBlock(pc) && Collectable(pc)
    ensures r == AllMerges(pc, now)
  {
    r := [];
    if pc.isFinished {
      return;
    }
    if pc.endSequence.Some? {
      r := FindAllKnownEnd(pc, now);
    }
    if pc.endSequence.None? {
      r := FindAllUnknownEnd(pc, now);
    }
  }

  /** `r` merges a wanted node, flagged exactly when that node is the whole block. */
  ghost predicate WantedRequest(pc: ProofCalculation, now: nat, first: nat, last: nat, r: MergeRequest) {
    exists a, b :: Wanted(pc, now, first, last, a, b) && r == Request(a, b, a == first && b == last)
  }

  lemma {:induction false} RequestsMembers(ranges: seq<Span>, first: nat, last: nat, r: MergeRequest)
    ensures r in Requests(ranges, first, last)
       <==> exists x :: x in ranges && r == Request(x.0, x.1, x == (first, last))
  {
    if x :| x in ranges && r == Request(x.0, x.1, x == (first, last)) {
      var i :| 0 <= i < |ranges| && ranges[i] == x;
      assert Requests(ranges, first, last)[i] == r;
    }
  }

  /** With a known end the list is exactly the wanted nodes, flagged when they are the whole block. */
  lemma AllMergesKnownEnd(pc: ProofCalculation, now: nat, r: MergeRequest)
    requires StartsInBlock(pc) && pc.endSequence.Some? && !pc.isFinished
    ensures r in AllMerges(pc, now)
       <==> WantedRequest(pc, now, pc.startSequence, pc.endSequence.value, r)
  {
    var first, last := pc.startSequence, pc.endSequence.value;
    var plan := PlanRanges(pc, now, first, last);
    RequestsMembers(plan, first, last, r);
    if x :| x in plan && r == Request(x.0, x.1, x == (first, last)) {
      PlanExact(pc, now, first, last, x.0, x.1);
    }
    if a, b :| Wanted(pc, now, first, last, a, b) && r == Request(a, b, a == first && b == last) {
      PlanExact(pc, now, first, last, a, b);
      var x: Span := (a, b);
      assert x in plan;
    }
  }

  /** With a known end no two entries of the list cover a common sequence. */
  lemma AllMergesDisjoint(pc: ProofCalculation, now: nat, i: nat, j: nat)
    requires StartsInBlock(pc) && pc.endSequence.Some? && i < j < |AllMerges(pc, now)|
    ensures
      var r := AllMerges(pc, now);
      Last(r[i].sequences2) < r[j].sequences1[0]
  {
    PlanLeftToRight(pc, now, pc.startSequence, pc.endSequence.value);
  }

  // ---- the first merge only ----

  /** The recursive search for the first merge below `a..b`. */
  function FindMergeForTargetRange(pc: ProofCalculation, now: nat, a: nat, b: nat): Option<MergeRequest>
    decreases b - a
  {
    if a == b then None
    else if AnyActive(pc.proofs, Range(a, b), now) then None
    else if a > b then None
    else
      var m := Split(a, b);
      var left, right := Find(pc.proofs, Range(a, m - 1)), Find(pc.proofs, Range(m, b));
      if left.Some? && right.Some? && left.value.Available(now) && right.value.Available(now) then
        Some(MergeRequest(Range(a, m - 1), Range(m, b), false))
      else
        var inLeft :=
          if a < m - 1 && (left.None? || !left.value.Available(now))
          then FindMergeForTargetRange(pc, now, a, m - 1) else None;
        if inLeft.Some? then inLeft
        else if right.None? || !right.value.Available(now)
        then FindMergeForTargetRange(pc, now, m, b) else None
  }

  /** The answer of the first-merge search; with a known end it may fall through to the bottom-up search. */
  function FirstMerge(pc: ProofCalculation, now: nat): Option<MergeRequest>
    requires StartsInBlock(pc)
  {
    if pc.isFinished then None
    else if pc.endSequence.None? then Head(BottomUpRequests(pc, now))
    else
      var first, last := pc.startSequence, pc.endSequence.value;
      if BlockReady(pc, now, first, last) then Some(Request(first, last, true))
      else
        var r := FindMergeForTargetRange(pc, now, first, last);
        if r.Some? then r else Head(BottomUpRequests(pc, now))
  }

  method FindProofsToMerge(pc: ProofCalculation, now: nat) returns (r: Option<MergeRequest>)
    requires StartsInBlock(pc) && Collectable(pc)
    ensures r == FirstMerge(pc, now)
  {
    if pc.isFinished {
      return None;
    }
    if pc.endSequence.Some? {
      var first, last := pc.startSequence, pc.endSequence.value;
      if Find(pc.proofs, Range(first, last)).None? {
        var split := FindBinarySplitPoint(first, last);
        if split.value.Some? {
          var m := split.value.value;
          var ready := CheckHalves(pc, now, first, m, last);
          if ready {
            return Some(MergeRequest(Range(first, m - 1), Range(m, last), true));
          }
        }
      }
      r := FindMergeForTargetRange(pc, now, first, last);
      if r.Some? {
        return;
      }
    }
    r := FindFirstUnknownEnd(pc, now);
  }

  // ---- the plan the first-merge search follows ----

  /** The plan of the full search, except that only an active proof, not every stored one, stops it. */
  function ActivePlan(pc: ProofCalculation, now: nat, a: nat, b: nat): seq<Span>
    decreases b - a
  {
    if a >= b || Active(pc, now, a, b) then []
    else
      PlanTop(pc, now, a, b)
      + (ActivePlan(pc, now, a, Split(a, b) - 1) + ActivePlan(pc, now, Split(a, b), b))
  }

  /** The first plain request of a plan. */
  function PlainHead(plan: seq<Span>): Option<MergeRequest> {
    if plan == [] then None else Some(Request(plan[0].0, plan[0].1, false))
  }

  lemma ActiveIsPresent(pc: ProofCalculation, now: nat, a: nat, b: nat)
    ensures Active(pc, now, a, b) ==> Present(pc, a, b)
  {
    FindStored(pc.proofs, Range(a, b));
    AnyActiveIff(pc.proofs, Range(a, b), now);
  }

  /** Nothing is planned below an available half: it is active. */
  lemma NoneBelowAvailable(pc: ProofCalculation, now: nat, a: nat, b: nat)
    requires AvailableAt(pc, now, Range(a, b))
    ensures ActivePlan(pc, now, a, b) == []
  {
    AvailableIsActive(pc, now, Range(a, b));
  }

  /** Below an inactive range: its own merge if possible, else the plans of both halves. */
  lemma ActivePlanUnfold(pc: ProofCalculation, now: nat, a: nat, b: nat)
    requires a < b && !Active(pc, now, a, b)
    ensures ActivePlan(pc, now, a, b)
         == if HalvesAvailable(pc, now, a, b) then [(a, b)]
            else ActivePlan(pc, now, a, Split(a, b) - 1) + ActivePlan(pc, now, Split(a, b), b)
  {
    if HalvesAvailable(pc, now, a, b) {
      NoneBelowAvailable(pc, now, a, Split(a, b) - 1);
      NoneBelowAvailable(pc, now, Split(a, b), b);
    }
  }

  lemma HeadOfConcat(x: seq<Span>, y: seq<Span>)
    ensures PlainHead(x + y) == if PlainHead(x).Some? then PlainHead(x) else PlainHead(y)
  {
    if x == [] {
      assert x + y == y;
    }
  }

  lemma NoneFoundBelowAvailable(pc: ProofCalculation, now: nat, a: nat, b: nat)
    requires AvailableAt(pc, now, Range(a, b))
    ensures FindMergeForTargetRange(pc, now, a, b) == None
  {
    AvailableIsActive(pc, now, Range(a, b));
  }

  /** The search below an inactive range in terms of the searches below its halves. */
  lemma SearchUnfold(pc: ProofCalculation, now: nat, a: nat, b: nat)
    requires a < b && !Active(pc, now, a, b)
    ensures
      var inLeft := FindMergeForTargetRange(pc, now, a, Split(a, b) - 1);
      var inRight := FindMergeForTargetRange(pc, now, Split(a, b), b);
      FindMergeForTargetRange(pc, now, a, b)
      == if HalvesAvailable(pc, now, a, b) then Some(Request(a, b, false))
         else if inLeft.Some? then inLeft else inRight
  {
    var m := Split(a, b);
    if AvailableAt(pc, now, Range(a, m - 1)) {
      NoneFoundBelowAvailable(pc, now, a, m - 1);
    }
    if AvailableAt(pc, now, Range(m, b)) {
      NoneFoundBelowAvailable(pc, now, m, b);
    }
  }

  /** For every status assignment and clock the search returns the head of the active plan. */
  lemma {:induction false} SearchIsHead(pc: ProofCalculation, now: nat, a: nat, b: nat)
    ensures FindMergeForTargetRange(pc, now, a, b) == PlainHead(ActivePlan(pc, now, a, b))
    decreases b - a
  {
    if a < b && !Active(pc, now, a, b) {
      SearchIsHead(pc, now, a, Split(a, b) - 1);
      SearchIsHead(pc, now, Split(a, b), b);
      SearchIsHeadStep(pc, now, a, b);
    }
  }

  lemma SearchIsHeadStep(pc: ProofCalculation, now: nat, a: nat, b: nat)
    requires a < b && !Active(pc, now, a, b)
    requires FindMergeForTargetRange(pc, now, a, Split(a, b) - 1) == PlainHead(ActivePlan(pc, now, a, Split(a, b) - 1))
    requires FindMergeForTargetRange(pc, now, Split(a, b), b) == PlainHead(ActivePlan(pc, now, Split(a, b), b))
    ensures FindMergeForTargetRange(pc, now, a, b) == PlainHead(ActivePlan(pc, now, a, b))
  {
    SearchUnfold(pc, now, a, b);
    ActivePlanUnfold(pc, now, a, b);
    HeadOfConcat(ActivePlan(pc, now, a, Split(a, b) - 1), ActivePlan(pc, now, Split(a, b), b));
  }

  /** Every planned merge is in the active plan. */
  lemma {:induction false} PlanInActivePlan(pc: ProofCalculation, now: nat, a: nat, b: nat, x: Span)
    requires x in PlanRanges(pc, now, a, b)
    ensures x in ActivePlan(pc, now, a, b)
    decreases b - a
  {
    var m := Split(a, b);
    ActiveIsPresent(pc, now, a, b);
    PlanUnfold(pc, now, a, b, x);
    if x in PlanRanges(pc, now, a, m - 1) {
      PlanInActivePlan(pc, now, a, m - 1, x);
    } else if x in PlanRanges(pc, now, m, b) {
      PlanInActivePlan(pc, now, m, b, x);
    }
  }

  lemma {:induction false} ActivePlanWithin(pc: ProofCalculation, now: nat, a: nat, b: nat)
    ensures Within(ActivePlan(pc, now, a, b), a, b)
    decreases b - a
  {
    if a < b && !Active(pc, now, a, b) {
      ActivePlanWithin(pc, now, a, Split(a, b) - 1);
      ActivePlanWithin(pc, now, Split(a, b), b);
    }
  }

  lemma {:induction false} ActivePlanLeftToRight(pc: ProofCalculation, now: nat, a: nat, b: nat)
    ensures LeftToRight(ActivePlan(pc, now, a, b))
    decreases b - a
  {
    if a < b && !Active(pc, now, a, b) && !HalvesAvailable(pc, now, a, b) {
      ActivePlanLeftToRight(pc, now, a, Split(a, b) - 1);
      ActivePlanLeftToRight(pc, now, Split(a, b), b);
      ActivePlanHalves(pc, now, a, b);
    } else if a < b && !Active(pc, now, a, b) {
      ActivePlanUnfold(pc, now, a, b);
    }
  }

  lemma ActivePlanHalves(pc: ProofCalculation, now: nat, a: nat, b: nat)
    requires a < b && !Active(pc, now, a, b) && !HalvesAvailable(pc, now, a, b)
    requires LeftToRight(ActivePlan(pc, now, a, Split(a, b) - 1)) && LeftToRight(ActivePlan(pc, now, Split(a, b), b))
    ensures LeftToRight(ActivePlan(pc, now, a, b))
  {
    var m := Split(a, b);
    var left, right := ActivePlan(pc, now, a, m - 1), ActivePlan(pc, now, m, b);
    ActivePlanWithin(pc, now, a, m - 1);
    ActivePlanWithin(pc, now, m, b);
    LeftToRightConcat(left, right, a, m, b);
    ActivePlanUnfold(pc, now, a, b);
  }

  /** A node around a range of one half cannot lie in the other half. */
  lemma AroundInHalf(first: nat, last: nat, lo: nat, hi: nat, a: nat, b: nat, c: nat, d: nat)
    requires first < last && IsHalf(first, last, lo, hi) && lo <= a <= b <= hi
    requires Node(first, last, c, d) && Node(c, d, a, b) && !(c == first && d == last)
    ensures Node(lo, hi, c, d)
  {
    NodeBounds(c, d, a, b);
    AroundIn(first, last, c, d);
  }

  lemma AroundIn(first: nat, last: nat, c: nat, d: nat)
    requires first < last && Node(first, last, c, d) && !(c == first && d == last)
    ensures Node(first, Split(first, last) - 1, c, d) ==> d <= Split(first, last) - 1
    ensures Node(Split(first, last), last, c, d) ==> Split(first, last) <= c
    ensures Node(first, Split(first, last) - 1, c, d) || Node(Split(first, last), last, c, d)
  {
    if Node(first, Split(first, last) - 1, c, d) {
      NodeBounds(first, Split(first, last) - 1, c, d);
    }
    if Node(Split(first, last), last, c, d) {
      NodeBounds(Split(first, last), last, c, d);
    }
  }

  /** Nothing around the range is active. */
  ghost predicate Open(pc: ProofCalculation, now: nat, first: nat, last: nat, a: nat, b: nat) {
    forall c: nat, d: nat :: OpenAt(pc, now, first, last, a, b, c, d)
  }

  predicate OpenAt(pc: ProofCalculation, now: nat, first: nat, last: nat, a: nat, b: nat, c: nat, d: nat) {
    Node(first, last, c, d) && Node(c, d, a, b) ==> !Active(pc, now, c, d)
  }

  /** What the active plan holds: nodes with available halves, inactive themselves and below nothing active. */
  ghost predicate OpenNode(pc: ProofCalculation, now: nat, first: nat, last: nat, x: Span) {
    Node(first, last, x.0, x.1) && HalvesAvailable(pc, now, x.0, x.1) && Open(pc, now, first, last, x.0, x.1)
  }

  lemma OpenAbove(pc: ProofCalculation, now: nat, first: nat, last: nat, lo: nat, hi: nat, x: Span)
    requires first < last && IsHalf(first, last, lo, hi) && OpenNode(pc, now, lo, hi, x)
    requires !Active(pc, now, first, last)
    ensures OpenNode(pc, now, first, last, x)
  {
    NodeBounds(lo, hi, x.0, x.1);
    forall c: nat, d: nat
      ensures OpenAt(pc, now, first, last, x.0, x.1, c, d)
    {
      assert OpenAt(pc, now, lo, hi, x.0, x.1, c, d);
      if Node(first, last, c, d) && Node(c, d, x.0, x.1) && !(c == first && d == last) {
        AroundInHalf(first, last, lo, hi, x.0, x.1, c, d);
      }
    }
  }

  lemma OpenRoot(pc: ProofCalculation, now: nat, first: nat, last: nat)
    requires first < last && !Active(pc, now, first, last) && HalvesAvailable(pc, now, first, last)
    ensures OpenNode(pc, now, first, last, (first, last))
  {
    forall c: nat, d: nat
      ensures OpenAt(pc, now, first, last, first, last, c, d)
    {
      if Node(first, last, c, d) && Node(c, d, first, last) {
        NodeBounds(first, last, c, d);
        NodeBounds(c, d, first, last);
      }
    }
  }

  lemma ActivePlanMember(pc: ProofCalculation, now: nat, first: nat, last: nat, x: Span)
    requires x in ActivePlan(pc, now, first, last)
    ensures first < last && !Active(pc, now, first, last)
    ensures (x == (first, last) && HalvesAvailable(pc, now, first, last))
         || x in ActivePlan(pc, now, first, Split(first, last) - 1)
         || x in ActivePlan(pc, now, Split(first, last), last)
  {
  }

  lemma {:induction false} ActivePlanOpen(pc: ProofCalculation, now: nat, first: nat, last: nat, x: Span)
    ensures x in ActivePlan(pc, now, first, last) ==> OpenNode(pc, now, first, last, x)
    decreases last - first
  {
    if first < last && !Active(pc, now, first, last) {
      ActivePlanOpen(pc, now, first, Split(first, last) - 1, x);
      ActivePlanOpen(pc, now, Split(first, last), last, x);
      OpenFromHalves(pc, now, first, last, x);
    }
  }

  lemma OpenFromHalves(pc: ProofCalculation, now: nat, first: nat, last: nat, x: Span)
    requires first < last && !Active(pc, now, first, last)
    requires x in ActivePlan(pc, now, first, Split(first, last) - 1) ==>
               OpenNode(pc, now, first, Split(first, last) - 1, x)
    requires x in ActivePlan(pc, now, Split(first, last), last) ==> OpenNode(pc, now, Split(first, last), last, x)
    ensures x in ActivePlan(pc, now, first, last) ==> OpenNode(pc, now, first, last, x)
  {
    if x in ActivePlan(pc, now, first, last) {
      ActivePlanMember(pc, now, first, last, x);
      if x in ActivePlan(pc, now, first, Split(first, last) - 1) {
        OpenAbove(pc, now, first, last, first, Split(first, last) - 1, x);
      } else if x in ActivePlan(pc, now, Split(first, last), last) {
        OpenAbove(pc, now, first, last, Split(first, last), last, x);
      } else {
        OpenRoot(pc, now, first, last);
      }
    }
  }

  // ---- exactly when the two searches agree ----

  /** Neither the range nor any node of the block's tree around it is stored, in whatever status. */
  ghost predicate Unobstructed(pc: ProofCalculation, first: nat, last: nat, a: nat, b: nat) {
    forall c, d :: Node(first, last, c, d) && Node(c, d, a, b) ==> !Present(pc, c, d)
  }

  /**
    The first range of the active plan has nothing stored around it; or, when the active plan is empty, the
    bottom-up planner wants nothing either.
  */
  ghost predicate SearchesAgree(pc: ProofCalculation, now: nat)
    requires pc.endSequence.Some?
  {
    var first, last := pc.startSequence, pc.endSequence.value;
    var q := ActivePlan(pc, now, first, last);
    if q != [] then Unobstructed(pc, first, last, q[0].0, q[0].1)
    else forall a, b :: !BottomUpWanted(pc, now, a, b)
  }

  /** Unobstructed, the head of the active plan is the head of the plan; obstructed, it is not in the plan. */
  lemma HeadsAgree(pc: ProofCalculation, now: nat, first: nat, last: nat)
    requires ActivePlan(pc, now, first, last) != []
    ensures
      var p, q := PlanRanges(pc, now, first, last), ActivePlan(pc, now, first, last);
      (p != [] && p[0] == q[0]) <==> Unobstructed(pc, first, last, q[0].0, q[0].1)
  {
    var p, q := PlanRanges(pc, now, first, last), ActivePlan(pc, now, first, last);
    var x := q[0];
    assert x in q;
    ActivePlanOpen(pc, now, first, last, x);
    PlanExact(pc, now, first, last, x.0, x.1);
    if Unobstructed(pc, first, last, x.0, x.1) {
      var i :| 0 <= i < |p| && p[i] == x;
      PlanLeftToRight(pc, now, first, last);
      PlanInActivePlan(pc, now, first, last, p[0]);
      ActivePlanLeftToRight(pc, now, first, last);
      var j :| 0 <= j < |q| && q[j] == p[0];
    }
  }

  lemma EmptyPlans(pc: ProofCalculation, now: nat, first: nat, last: nat)
    requires ActivePlan(pc, now, first, last) == []
    ensures PlanRanges(pc, now, first, last) == []
  {
    if PlanRanges(pc, now, first, last) != [] {
      PlanInActivePlan(pc, now, first, last, PlanRanges(pc, now, first, last)[0]);
    }
  }

  lemma BottomUpEmptyIff(pc: ProofCalculation, now: nat)
    requires WellFormed(pc)
    ensures BottomUpRequests(pc, now) == [] <==> forall a, b :: !BottomUpWanted(pc, now, a, b)
  {
    forall a, b | BottomUpWanted(pc, now, a, b)
      ensures BottomUpRequests(pc, now) != []
    {
      BottomUpExact(pc, now, Request(a, b, false));
    }
    if BottomUpRequests(pc, now) != [] {
      var a, b := ListedIsWanted(pc, now, BottomUpRequests(pc, now)[0]);
    }
  }

  /** The block can be merged at once exactly when it is the first range of both plans. */
  lemma ReadyIsHead(pc: ProofCalculation, now: nat, first: nat, last: nat)
    ensures
      var p := PlanRanges(pc, now, first, last);
      BlockReady(pc, now, first, last) <==> p != [] && p[0] == (first, last)
  {
    var p := PlanRanges(pc, now, first, last);
    if p != [] && p[0] == (first, last) {
      assert p[0] in p;
      PlanExact(pc, now, first, last, first, last);
      assert Node(first, last, first, last);
    }
  }

  lemma ReadyIsActiveHead(pc: ProofCalculation, now: nat, first: nat, last: nat)
    requires BlockReady(pc, now, first, last)
    ensures
      var q := ActivePlan(pc, now, first, last);
      q != [] && q[0] == (first, last)
  {
    ActiveIsPresent(pc, now, first, last);
  }

  lemma KnownEndAgreesIff(pc: ProofCalculation, now: nat)
    requires WellFormed(pc) && pc.endSequence.Some? && !pc.isFinished
    ensures FirstMerge(pc, now) == Head(AllMerges(pc, now)) <==> SearchesAgree(pc, now)
  {
    var first, last := pc.startSequence, pc.endSequence.value;
    var p, q := PlanRanges(pc, now, first, last), ActivePlan(pc, now, first, last);
    SearchIsHead(pc, now, first, last);
    ReadyIsHead(pc, now, first, last);
    if BlockReady(pc, now, first, last) {
      ReadyIsActiveHead(pc, now, first, last);
    }
    if q == [] {
      EmptyPlans(pc, now, first, last);
      BottomUpEmptyIff(pc, now);
    } else {
      HeadsAgree(pc, now, first, last);
      if p != [] {
        RequestsDiffer(p[0], q[0]);
      }
    }
  }

  lemma RequestsDiffer(x: Span, y: Span)
    ensures Request(x.0, x.1, false) == Request(y.0, y.1, false) ==> x == y
  {
    if Request(x.0, x.1, false) == Request(y.0, y.1, false) {
      RangeInjective(x.0, Split(x.0, x.1) - 1, y.0, Split(y.0, y.1) - 1);
      RangeInjective(Split(x.0, x.1), x.1, Split(y.0, y.1), y.1);
    }
  }

  /**
    In every well-formed block, at every clock, the first-merge search returns the head of the full list if
    and only if the block is finished, its end is unknown, or the searches agree on what is in the way.
  */
  lemma FirstIsHeadIff(pc: ProofCalculation, now: nat)
    requires WellFormed(pc)
    ensures FirstMerge(pc, now) == Head(AllMerges(pc, now))
       <==> pc.isFinished || pc.endSequence.None? || SearchesAgree(pc, now)
  {
    if pc.endSequence.Some? && !pc.isFinished {
      KnownEndAgreesIff(pc, now);
    }
  }

  // ---- where they agree ----

  /** No stored proof is Rejected or a Started one that timed out. */
  predicate AllActive(pc: ProofCalculation, now: nat) {
    forall p :: p in pc.proofs ==> p.ActiveOrCompleted(now)
  }

  predicate HalvesPresentAt(pc: ProofCalculation, a: nat, b: nat) {
    a < b && Present(pc, a, b) ==> Present(pc, a, Split(a, b) - 1) && Present(pc, Split(a, b), b)
  }

  /** Every stored merged proof has its halves stored. */
  ghost predicate HalvesPresent(pc: ProofCalculation) {
    forall a: nat, b: nat :: HalvesPresentAt(pc, a, b)
  }

  lemma {:induction false} PresentBelow(pc: ProofCalculation, a: nat, b: nat, c: nat, d: nat)
    requires HalvesPresent(pc) && Present(pc, a, b) && Node(a, b, c, d)
    ensures Present(pc, c, d)
    decreases b - a
  {
    if !(a == c && b == d) {
      var m := Split(a, b);
      assert HalvesPresentAt(pc, a, b);
      if Node(a, m - 1, c, d) {
        PresentBelow(pc, a, m - 1, c, d);
      } else {
        PresentBelow(pc, m, b, c, d);
      }
    }
  }

  lemma PresentIsActive(pc: ProofCalculation, now: nat, a: nat, b: nat)
    requires AllActive(pc, now)
    ensures Present(pc, a, b) ==> Active(pc, now, a, b)
  {
    FindStored(pc.proofs, Range(a, b));
    AnyActiveIff(pc.proofs, Range(a, b), now);
  }

  /** A chunk whose halves are stored in a well-formed block with a known end is a node of its tree. */
  lemma ChunkInBlock(pc: ProofCalculation, now: nat, a: nat, b: nat)
    requires WellFormed(pc) && pc.endSequence.Some? && BottomUpWanted(pc, now, a, b)
    ensures Node(pc.startSequence, pc.endSequence.value, a, b)
  {
    var right := Find(pc.proofs, Range(Split(a, b), b)).value;
    FindStored(pc.proofs, Range(Split(a, b), b));
    assert Last(right.sequences) == b;
    ChunkIsNode(pc.startSequence, a, b, pc.endSequence.value);
  }

  /** With halves kept and every proof active, an empty plan leaves the bottom-up planner nothing to want. */
  lemma NothingWantedBelow(pc: ProofCalculation, now: nat, a: nat, b: nat)
    requires WellFormed(pc) && pc.endSequence.Some? && AllActive(pc, now) && HalvesPresent(pc)
    requires PlanRanges(pc, now, pc.startSequence, pc.endSequence.value) == []
    ensures !BottomUpWanted(pc, now, a, b)
  {
    var first, last := pc.startSequence, pc.endSequence.value;
    if BottomUpWanted(pc, now, a, b) {
      ChunkInBlock(pc, now, a, b);
      PresentIsActive(pc, now, a, b);
      forall c, d | Node(first, last, c, d) && Node(c, d, a, b)
        ensures !Present(pc, c, d)
      {
        if Present(pc, c, d) {
          PresentBelow(pc, c, d, a, b);
        }
      }
      PlanExact(pc, now, first, last, a, b);
    }
  }

  /**
    With a known end, in a well-formed block without rejected or expired proofs in which merged proofs
    keep their halves, the first merge is the head of the full list, and None exactly when that is empty.
  */
  lemma FirstIsHeadKnownEnd(pc: ProofCalculation, now: nat)
    requires WellFormed(pc) && pc.endSequence.Some? && AllActive(pc, now) && HalvesPresent(pc)
    ensures FirstMerge(pc, now) == Head(AllMerges(pc, now))
  {
    var first, last := pc.startSequence, pc.endSequence.value;
    var q := ActivePlan(pc, now, first, last);
    FirstIsHeadIff(pc, now);
    if q == [] {
      EmptyPlans(pc, now, first, last);
      forall a, b
        ensures !BottomUpWanted(pc, now, a, b)
      {
        NothingWantedBelow(pc, now, a, b);
      }
    } else {
      ActivePlanOpen(pc, now, first, last, q[0]);
      forall c, d | Node(first, last, c, d) && Node(c, d, q[0].0, q[0].1)
        ensures !Present(pc, c, d)
      {
        PresentIsActive(pc, now, c, d);
        assert OpenAt(pc, now, first, last, q[0].0, q[0].1, c, d);
      }
    }
  }

  // ---- where they do not ----

  /**
    A stored block proof that is rejected or expired: the full search counts it as existing and proposes
    nothing, the first-merge search proposes the block merge again, and without the block flag.
  */
  lemma InactiveBlockProofDisagrees(pc: ProofCalculation, now: nat)
    requires WellFormed(pc) && pc.endSequence.Some? && !pc.isFinished && pc.startSequence < pc.endSequence.value
    requires Present(pc, pc.startSequence, pc.endSequence.value)
    requires !Active(pc, now, pc.startSequence, pc.endSequence.value)
    requires HalvesAvailable(pc, now, pc.startSequence, pc.endSequence.value)
    ensures !SearchesAgree(pc, now)
    ensures AllMerges(pc, now) == []
    ensures FirstMerge(pc, now) == Some(Request(pc.startSequence, pc.endSequence.value, false))
  {
    var first, last := pc.startSequence, pc.endSequence.value;
    PlanOfPresent(pc, now, first, last);
    assert ActivePlan(pc, now, first, last)[0] == (first, last);
    assert Node(first, last, first, last);
    SearchIsHead(pc, now, first, last);
  }

  /**
    An active block proof over halves that are gone: the full search is done, but the first-merge search
    falls through to the bottom-up search and still proposes whatever that wants.
  */
  lemma MissingHalvesDisagree(pc: ProofCalculation, now: nat, a: nat, b: nat)
    requires WellFormed(pc) && pc.endSequence.Some? && !pc.isFinished
    requires Active(pc, now, pc.startSequence, pc.endSequence.value)
    requires BottomUpWanted(pc, now, a, b)
    ensures !SearchesAgree(pc, now)
    ensures AllMerges(pc, now) == [] && FirstMerge(pc, now).Some?
  {
    EmptyPlans(pc, now, pc.startSequence, pc.endSequence.value);
    FirstIsHeadIff(pc, now);
  }

  /** Two singles and their rejected merge. */
  function RejectedBlock(t: nat): ProofCalculation {
    ProofCalculation(0, Some(1), [
      Proof([0], Calculated, t, None, None, true),
      Proof([1], Calculated, t, None, None, true),
      Proof([0, 1], Rejected, t, Some([0]), Some([1]), true)], false)
  }

  lemma RejectedBlockDisagrees(t: nat, now: nat)
    ensures StartsInBlock(RejectedBlock(t))
    ensures FirstMerge(RejectedBlock(t), now) == Some(Request(0, 1, false))
    ensures AllMerges(RejectedBlock(t), now) == []
  {
    var proofs := RejectedBlock(t).proofs;
    assert Split(0, 1) == 1;
    assert Range(0, 0) == [0] && Range(1, 1) == [1] && Range(0, 1) == [0, 1];
    assert [0] != [1] && |[0]| == |[1]| == 1 && |[0, 1]| == 2;
    assert Distinct(proofs);
    FindDistinct(proofs, proofs[0]);
    FindDistinct(proofs, proofs[1]);
    FindDistinct(proofs, proofs[2]);
    AnyActiveIff(proofs, [0, 1], now);
    assert !Active(RejectedBlock(t), now, 0, 1);
    assert WellFormed(RejectedBlock(t));
    InactiveBlockProofDisagrees(RejectedBlock(t), now);
  }

  /** A block proof of four sequences of which only the first two singles are kept. */
  function PrunedBlock(t: nat): ProofCalculation {
    ProofCalculation(0, Some(3), [
      Proof([0], Calculated, t, None, None, true),
      Proof([1], Calculated, t, None, None, true),
      Proof([0, 1, 2, 3], Calculated, t, Some([0, 1]), Some([2, 3]), true)], false)
  }

  lemma PrunedBlockFacts(t: nat, now: nat)
    ensures WellFormed(PrunedBlock(t))
    ensures AvailableAt(PrunedBlock(t), now, Range(0, 0)) && AvailableAt(PrunedBlock(t), now, Range(1, 1))
    ensures !Active(PrunedBlock(t), now, 0, 1) && Active(PrunedBlock(t), now, 0, 3)
  {
    var proofs := PrunedBlock(t).proofs;
    assert Range(0, 0) == [0] && Range(1, 1) == [1] && Range(0, 1) == [0, 1] && Range(0, 3) == [0, 1, 2, 3];
    assert [0] != [1] && |[0]| == |[1]| == 1 && |[0, 1]| == 2 && |[0, 1, 2, 3]| == 4;
    assert Distinct(proofs);
    FindDistinct(proofs, proofs[0]);
    FindDistinct(proofs, proofs[1]);
    AnyActiveIff(proofs, [0, 1], now);
    AnyActiveIff(proofs, [0, 1, 2, 3], now);
    assert proofs[2].ActiveOrCompleted(now) && proofs[2] in proofs;
  }

  lemma FirstPairWanted(pc: ProofCalculation, now: nat)
    requires pc.startSequence == 0
    requires AvailableAt(pc, now, Range(0, 0)) && AvailableAt(pc, now, Range(1, 1)) && !Active(pc, now, 0, 1)
    ensures BottomUpWanted(pc, now, 0, 1)
  {
    assert Split(0, 1) == 1;
    assert Pow2(1) == 2;
  }

  lemma PrunedBlockDisagrees(t: nat, now: nat)
    ensures StartsInBlock(PrunedBlock(t))
    ensures AllMerges(PrunedBlock(t), now) == [] && FirstMerge(PrunedBlock(t), now).Some?
  {
    PrunedBlockFacts(t, now);
    FirstPairWanted(PrunedBlock(t), now);
    MissingHalvesDisagree(PrunedBlock(t), now, 0, 1);
  }
}
