/**
 * Two peers pulling from each other at once: every atomic section of either, in any order.
 * Records are immutable, so a peer is the set of references it holds.
 */
module PeerInterleaving {
  import opened Prelude
  import opened RecordStorage

  /** Where a pull loop stands: about to ask for a page, or with references of a page to fetch. */
  datatype Phase =
    | Asking(cursor: Option<Ref>)
    | Fetching(todo: seq<Ref>, next: Option<Ref>)
    | Converged

  /** `seen` is history: what the other peer held when this peer's current pass began. */
  datatype Peer = Peer(held: set<Ref>, phase: Phase, changed: bool, seen: set<Ref>)

  datatype Pair = Pair(first: Peer, second: Peer)

  /** A page the store may answer: in order, at most the limit, nothing left out up to `next`. */
  ghost predicate IsPage(held: set<Ref>, cursor: Option<Ref>, page: seq<Ref>, next: Option<Ref>) {
    && |page| <= MAX_INVENTORY && Ascending(page)
    && (forall ref :: ref in page <==> ref in held && Past(ref, cursor) && !(next.Some? && Past(ref, next)))
    && (next.Some? ==> page != [] && next.value == page[|page| - 1])
  }

  /** One atomic section of `me` while the other peer is `other`. */
  ghost predicate Move(me: Peer, other: Peer, after: Peer) {
    match me.phase
    case Asking(cursor) =>
      && after.phase.Fetching?
      && after.held == me.held && after.changed == me.changed
      && after.seen == (if cursor.None? then other.held else me.seen)
      && exists page :: && IsPage(other.held, cursor, page, after.phase.next)
                        && IsMissing(page, me.held, after.phase.todo)
    case Fetching(todo, next) =>
      if todo != [] then
        exists count: nat | 1 <= count <= |todo| && count <= MAX_OPERATION_REFS ::
          && (forall ref <- todo[..count] :: ref in other.held)
          && after == me.(held := me.held + (set ref <- todo[..count]),
                          phase := Fetching(todo[count..], next),
                          changed := me.changed || (exists ref <- todo[..count] :: ref !in me.held))
      else if next.Some? then after == me.(phase := Asking(next))
      else if me.changed then after == me.(phase := Asking(None), changed := false)
      else after == me.(phase := Converged)
    case Converged => false
  }

  ghost predicate IsMissing(page: seq<Ref>, held: set<Ref>, todo: seq<Ref>) {
    && |todo| <= |page|
    && forall ref :: ref in todo <==> ref in page && ref !in held
  }

  ghost predicate Step(p: Pair, q: Pair) {
    || (Move(p.first, p.second, q.first) && q.second == p.second)
    || (Move(p.second, p.first, q.second) && q.first == p.first)
  }

  ghost predicate Start(p: Pair, universe: set<Ref>) {
    && universe == p.first.held + p.second.held
    && Begins(p.first, p.second) && Begins(p.second, p.first)
  }

  ghost predicate Begins(me: Peer, other: Peer) {
    me.phase == Asking(None) && !me.changed && me.seen == {}
  }

  // ----- Safety -----

  /** What `me` knows of `other`: nothing `other` had when the pass began has been skipped. */
  ghost predicate Covers(me: Peer, other: Peer, universe: set<Ref>) {
    && me.held <= universe && me.seen <= other.held
    && (match me.phase
        case Asking(cursor) =>
          cursor.Some? ==>
            && other.held <= me.seen + me.held
            && cursor.value in universe
            && forall ref <- me.seen :: ref in me.held || Past(ref, cursor)
        case Fetching(todo, next) =>
          && other.held <= me.seen + me.held
          && (forall ref <- todo :: ref in other.held)
          && (next.Some? ==> next.value in universe)
          && forall ref <- me.seen :: ref in me.held || ref in todo || (next.Some? && Past(ref, next))
        case Converged => other.held <= me.held)
  }

  ghost predicate Good(p: Pair, universe: set<Ref>) {
    && universe == p.first.held + p.second.held
    && Covers(p.first, p.second, universe) && Covers(p.second, p.first, universe)
  }

  lemma StepKeepsGood(p: Pair, q: Pair, universe: set<Ref>)
    requires Good(p, universe) && Step(p, q)
    ensures Good(q, universe)
  {
  }

  lemma StepGrows(p: Pair, q: Pair, universe: set<Ref>)
    requires Good(p, universe) && Step(p, q)
    ensures p.first.held <= q.first.held && p.second.held <= q.second.held
  {
  }

  ghost predicate IsRun(run: seq<Pair>) {
    forall i | 0 <= i < |run| - 1 :: Step(run[i], run[i + 1])
  }

  /** Whenever a peer's loop has ended, it holds everything either peer started with. */
  lemma {:induction false} ConvergedPeersHoldTheUnion(run: seq<Pair>, universe: set<Ref>)
    requires run != [] && IsRun(run) && Start(run[0], universe)
    ensures var last := run[|run| - 1];
            && Good(last, universe)
            && (last.first.phase.Converged? ==> last.first.held == universe)
            && (last.second.phase.Converged? ==> last.second.held == universe)
  {
    if |run| > 1 {
      ConvergedPeersHoldTheUnion(run[..|run| - 1], universe);
      StepKeepsGood(run[|run| - 2], run[|run| - 1], universe);
    }
  }

  // ----- Termination -----

  ghost function Ahead(universe: set<Ref>, cursor: Option<Ref>): set<Ref> {
    set ref <- universe | Past(ref, cursor)
  }

  /** How much a pass can still have to do. */
  ghost function PassLeft(phase: Phase, universe: set<Ref>): nat {
    match phase
    case Asking(cursor) => 3 * |Ahead(universe, cursor)| + 2
    case Fetching(todo, next) => (if next.Some? then 3 * |Ahead(universe, next)| + 2 else 0) + |todo| + 1
    case Converged => 0
  }

  ghost function Rank(me: Peer, universe: set<Ref>): nat
    requires me.held <= universe
  {
    var pass := 3 * |universe| + 2;
    |universe - me.held| * (pass + 1) + (if me.changed then pass else 0) + PassLeft(me.phase, universe)
  }

  lemma AheadShrinks(universe: set<Ref>, cursor: Option<Ref>, page: seq<Ref>, next: Option<Ref>)
    requires Ascending(page) && (next.Some? ==> page != [] && next.value == page[|page| - 1])
    requires forall ref <- page :: ref in universe && Past(ref, cursor) && !(next.Some? && Past(ref, next))
    ensures |page| <= |Ahead(universe, cursor)| <= |universe|
    ensures next.Some? ==> |Ahead(universe, next)| + |page| <= |Ahead(universe, cursor)|
  {
    var ahead := Ahead(universe, cursor);
    var paged := set ref <- page;
    AscendingCounts(page);
    Subset(ahead, universe);
    Subset(paged, ahead);
    if next.Some? {
      var later := Ahead(universe, next);
      assert page[|page| - 1] in page;
      forall ref | ref in later ensures ref in ahead {
        if cursor.Some? { BeforeIsTransitive(cursor.value, next.value, ref); }
      }
      assert later !! paged;
      assert |later + paged| == |later| + |paged|;
      Subset(later + paged, ahead);
    }
  }

  lemma {:induction false} AscendingCounts(page: seq<Ref>)
    requires Ascending(page)
    ensures |(set ref <- page)| == |page|
  {
    if page != [] {
      var front, last := page[..|page| - 1], page[|page| - 1];
      AscendingCounts(front);
      assert page == front + [last];
      forall i | 0 <= i < |front| ensures front[i] != last {
        assert Before(page[i], page[|page| - 1]);
        BeforeIsTotal(page[i], last);
      }
      assert (set ref <- page) == (set ref <- front) + {last};
    }
  }

  lemma Subset<T>(a: set<T>, b: set<T>)
    requires a <= b
    ensures |a| <= |b|
  {
    assert b == a + (b - a);
  }

  lemma FewerWeighLess(left: nat, before: nat, weight: nat)
    requires left < before
    ensures left * weight + weight <= before * weight
  {
    assert before == left + 1 + (before - left - 1);
    assert before * weight == left * weight + weight + (before - left - 1) * weight;
  }

  lemma BatchLowersRank(me: Peer, count: nat, after: Peer, universe: set<Ref>)
    requires me.held <= after.held <= universe && me.phase.Fetching? && 1 <= count <= |me.phase.todo|
    requires after.phase == Fetching(me.phase.todo[count..], me.phase.next)
    requires after.held == me.held ==> after.changed == me.changed
    ensures Rank(after, universe) < Rank(me, universe)
  {
    var before, left := universe - me.held, universe - after.held;
    if after.held != me.held {
      assert before == left + (after.held - me.held);
      assert after.held - me.held != {};
      FewerWeighLess(|left|, |before|, 3 * |universe| + 3);
    }
  }

  /** Every atomic section of a peer brings its own loop closer to its end. */
  lemma MoveLowersRank(me: Peer, other: Peer, after: Peer, universe: set<Ref>)
    requires Covers(me, other, universe) && other.held <= universe && Move(me, other, after)
    requires me.held <= after.held <= universe
    ensures Rank(after, universe) < Rank(me, universe)
  {
    match me.phase
    case Asking(cursor) =>
      var page :| IsPage(other.held, cursor, page, after.phase.next) && IsMissing(page, me.held, after.phase.todo);
      AheadShrinks(universe, cursor, page, after.phase.next);
    case Fetching(todo, next) =>
      if todo != [] {
        var count: nat :| 1 <= count <= |todo| && after.phase == Fetching(todo[count..], next)
                          && after.held == me.held + (set ref <- todo[..count])
                          && after.changed == (me.changed || exists ref <- todo[..count] :: ref !in me.held);
        assert after.held == me.held ==> forall ref <- todo[..count] :: ref in after.held;
        BatchLowersRank(me, count, after, universe);
      } else if !next.Some? && me.changed {
        assert Ahead(universe, None) == universe;
      }
    case Converged =>
  }

  lemma StepLowersRank(p: Pair, q: Pair, universe: set<Ref>)
    requires Good(p, universe) && Good(q, universe) && Step(p, q)
    ensures Work(q, universe) < Work(p, universe)
  {
    StepGrows(p, q, universe);
    if Move(p.first, p.second, q.first) && q.second == p.second {
      MoveLowersRank(p.first, p.second, q.first, universe);
    } else {
      MoveLowersRank(p.second, p.first, q.second, universe);
    }
  }

  lemma {:induction false} DescentIsShort(ranks: seq<nat>)
    requires ranks != [] && forall i | 0 <= i < |ranks| - 1 :: ranks[i + 1] < ranks[i]
    ensures |ranks| - 1 + ranks[|ranks| - 1] <= ranks[0]
  {
    if |ranks| > 1 {
      DescentIsShort(ranks[..|ranks| - 1]);
    }
  }

  ghost function Work(p: Pair, universe: set<Ref>): nat
    requires p.first.held <= universe && p.second.held <= universe
  {
    Rank(p.first, universe) + Rank(p.second, universe)
  }

  lemma {:induction false} RunStaysGood(run: seq<Pair>, universe: set<Ref>, i: nat)
    requires run != [] && IsRun(run) && Start(run[0], universe) && i < |run|
    ensures Good(run[i], universe)
  {
    if i > 0 {
      RunStaysGood(run, universe, i - 1);
      StepKeepsGood(run[i - 1], run[i], universe);
    }
  }

  /**
   * Whatever the interleaving, a run of sections is no longer than the work it starts with: both
   * loops end.
   */
  lemma BothLoopsEnd(run: seq<Pair>, universe: set<Ref>)
    requires run != [] && IsRun(run) && Start(run[0], universe)
    ensures Good(run[|run| - 1], universe)
    ensures |run| - 1 + Work(run[|run| - 1], universe) <= Work(run[0], universe)
  {
    forall i: nat | i < |run| ensures Good(run[i], universe) { RunStaysGood(run, universe, i); }
    var ranks: seq<nat> := seq(|run|, i requires 0 <= i < |run| => Work(run[i], universe));
    forall i | 0 <= i < |run| - 1 ensures ranks[i + 1] < ranks[i] {
      StepLowersRank(run[i], run[i + 1], universe);
    }
    DescentIsShort(ranks);
  }

  /** And none gets stuck: a peer whose loop has not ended always has a section to run. */
  lemma UnfinishedPeersCanMove(me: Peer, other: Peer, universe: set<Ref>) returns (after: Peer)
    requires Covers(me, other, universe) && other.held <= universe && !me.phase.Converged?
    ensures Move(me, other, after)
  {
    match me.phase
    case Asking(cursor) =>
      var page, next := SomePage(other.held, cursor);
      var todo := Filter(page, me.held);
      after := me.(phase := Fetching(todo, next), seen := if cursor.None? then other.held else me.seen);
      assert IsPage(other.held, cursor, page, next) && IsMissing(page, me.held, todo);
    case Fetching(todo, next) =>
      if todo != [] {
        var one := todo[..1];
        after := me.(held := me.held + (set ref <- one),
                     phase := Fetching(todo[1..], next),
                     changed := me.changed || (exists ref <- one :: ref !in me.held));
        assert forall ref <- one :: ref in todo;
      } else if next.Some? {
        after := me.(phase := Asking(next));
      } else if me.changed {
        after := me.(phase := Asking(None), changed := false);
      } else {
        after := me.(phase := Converged);
      }
  }

  ghost function Filter(page: seq<Ref>, held: set<Ref>): (todo: seq<Ref>)
    ensures IsMissing(page, held, todo)
  {
    if page == [] then []
    else
      var rest := Filter(page[..|page| - 1], held);
      var last := page[|page| - 1];
      assert page == page[..|page| - 1] + [last];
      if last in held then rest else rest + [last]
  }

  /** The page of at most one entry is already a page. */
  lemma SomePage(held: set<Ref>, cursor: Option<Ref>) returns (page: seq<Ref>, next: Option<Ref>)
    ensures IsPage(held, cursor, page, next)
  {
    var ahead := Ahead(held, cursor);
    forall ref | ref in held && Past(ref, cursor) ensures ref in ahead {}
    if ahead == {} {
      page, next := [], None;
    } else {
      var least := LeastExists(ahead);
      page, next := [least], Some(least);
      BeforeIsTotal(least, least);
      assert least in ahead;
      forall ref | ref in held && Past(ref, cursor) && !Past(ref, next) ensures ref == least {
        assert ref in ahead;
      }
    }
  }
}
