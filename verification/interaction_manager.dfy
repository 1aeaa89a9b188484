/** Centre-ray hover resolution and click selection
    (components/expo/InteractionManager.tsx). */
module InteractionManager {

  import opened Optional
  import opened Booth

  /** Index of the first element satisfying `p`. */
  function FirstIndex<T>(s: seq<T>, p: T -> bool): (r: Option<nat>)
    ensures r.Some? ==> r.value < |s| && p(s[r.value])
    ensures r.Some? ==> forall j :: 0 <= j < r.value ==> !p(s[j])
    ensures r.None? ==> forall j :: 0 <= j < |s| ==> !p(s[j])
    decreases |s|
  {
    if |s| == 0 then None
    else if p(s[0]) then Some(0)
    else match FirstIndex(s[1..], p)
      case None => None
      case Some(i) => Some(i + 1)
  }

  predicate IsTagged(u: UserData) {
    u.isBooth
  }

  /** The descriptor a hit contributes: that of the innermost tagged object
      on its chain, the hit object itself included; nothing when no object
      on the chain is tagged. */
  function ChainBooth(chain: AncestorChain): Option<BoothData> {
    match FirstIndex(chain, IsTagged)
    case None => None
    case Some(i) => chain[i].boothData
  }

  predicate Resolves(chain: AncestorChain) {
    ChainBooth(chain).Some?
  }

  /** Reference definition of the resolver: the descriptor of the earliest
      hit that contributes one. */
  function Resolve(hits: seq<AncestorChain>): (r: Option<BoothData>)
    ensures r.Some? ==>
              exists i :: 0 <= i < |hits| && ChainBooth(hits[i]) == r &&
                          (forall j :: 0 <= j < i ==> !Resolves(hits[j]))
    ensures r.None? <==> forall i :: 0 <= i < |hits| ==> !Resolves(hits[i])
  {
    match FirstIndex(hits, Resolves)
    case None => None
    case Some(i) => ChainBooth(hits[i])
  }

  /** The search loop of the frame callback: hits in ray order, and for each
      the walk from the hit object up through its parents. A tagged object
      ends the walk of its chain; only a present descriptor ends the search. */
  method ResolveHover(hits: seq<AncestorChain>) returns (found: Option<BoothData>)
    ensures found == Resolve(hits)
  {
    found := None;
    var i := 0;
    while i < |hits|
      invariant 0 <= i <= |hits|
      invariant found.None?
      invariant forall j :: 0 <= j < i ==> !Resolves(hits[j])
    {
      var chain := hits[i];
      var obj := 0;
      while obj < |chain|
        invariant 0 <= obj <= |chain|
        invariant found.None?
        invariant forall m :: 0 <= m < obj ==> !IsTagged(chain[m])
      {
        if IsTagged(chain[obj]) {
          found := chain[obj].boothData;
          assert FirstIndex(chain, IsTagged) == Some(obj);
          break;
        }
        obj := obj + 1;
      }
      assert found == ChainBooth(chain);
      if found.Some? {
        assert FirstIndex(hits, Resolves) == Some(i);
        break;
      }
      i := i + 1;
    }
  }

  /** What the frame does to the hover state: keep it, or set it. */
  datatype HoverUpdate = Keep | SetHover(hovered: Option<BoothData>)

  function ApplyHover(hovered: Option<BoothData>, u: HoverUpdate): Option<BoothData> {
    match u
    case Keep => hovered
    case SetHover(h) => h
  }

  /** The hover-change guard: the state is set only when the resolved
      descriptor differs from the current one, and afterwards equals it. */
  function HoverChange(hovered: Option<BoothData>, found: Option<BoothData>): (u: HoverUpdate)
    ensures u.SetHover? <==> found != hovered
    ensures ApplyHover(hovered, u) == found
  {
    if found != hovered then SetHover(found) else Keep
  }

  /** One frame: resolve the hits, then apply the guard. */
  method HoverFrame(hovered: Option<BoothData>, hits: seq<AncestorChain>) returns (u: HoverUpdate, next: Option<BoothData>)
    ensures next == Resolve(hits) && next == ApplyHover(hovered, u)
    ensures u.SetHover? <==> Resolve(hits) != hovered
  {
    var found := ResolveHover(hits);
    u := HoverChange(hovered, found);
    next := ApplyHover(hovered, u);
  }

  /** A frame seeing the same hits again changes nothing. */
  lemma HoverFrameIdempotent(hovered: Option<BoothData>, hits: seq<AncestorChain>)
    ensures HoverChange(ApplyHover(hovered, HoverChange(hovered, Resolve(hits))), Resolve(hits)) == Keep
  {
  }

  /** Outcome of the window click handler. */
  datatype ClickOutcome = Ignored | Selected(booth: BoothData)

  /** The click handler: `onSelect` is called with the hovered descriptor
      exactly when there is one. */
  function Click(hovered: Option<BoothData>): (o: ClickOutcome)
    ensures o.Selected? <==> hovered.Some?
    ensures o.Selected? ==> hovered == Some(o.booth)
  {
    match hovered
    case None => Ignored
    case Some(b) => Selected(b)
  }

  /** Within one chain the innermost tagged object decides, whatever tags
      its ancestors carry. */
  lemma InnermostTagWins(inner: AncestorChain, tag: UserData, outer: AncestorChain)
    requires forall m :: 0 <= m < |inner| ==> !IsTagged(inner[m])
    requires IsTagged(tag)
    ensures ChainBooth(inner + [tag] + outer) == tag.boothData
  {
    var chain := inner + [tag] + outer;
    assert chain[|inner|] == tag;
    assert forall m :: 0 <= m < |inner| ==> chain[m] == inner[m];
    assert FirstIndex(chain, IsTagged) == Some(|inner|);
  }

  /** A tagged object without a descriptor ends its own chain's walk but not
      the search: the later hits are examined as if that hit were absent. */
  lemma UntaggedDescriptorSkipped(hit: AncestorChain, rest: seq<AncestorChain>)
    requires FirstIndex(hit, IsTagged).Some? && ChainBooth(hit).None?
    ensures Resolve([hit] + rest) == Resolve(rest)
  {
    var hits := [hit] + rest;
    assert !Resolves(hits[0]);
    assert forall i :: 0 <= i < |rest| ==> hits[i + 1] == rest[i];
    match FirstIndex(rest, Resolves)
    case None =>
      assert forall i :: 0 <= i < |hits| ==> !Resolves(hits[i]) by {
        forall i | 0 <= i < |hits| ensures !Resolves(hits[i]) {
          if i > 0 { assert hits[i] == rest[i - 1]; }
        }
      }
    case Some(k) =>
      assert FirstIndex(hits, Resolves) == Some(k + 1);
  }

  /** Occlusion: hits that contribute nothing, however many and whatever
      they are, do not hide the nearest hit that does. */
  lemma NearestResolvingHitWins(front: seq<AncestorChain>, hit: AncestorChain, rest: seq<AncestorChain>)
    requires forall i :: 0 <= i < |front| ==> !Resolves(front[i])
    requires Resolves(hit)
    ensures Resolve(front + [hit] + rest) == ChainBooth(hit)
  {
    var hits := front + [hit] + rest;
    assert hits[|front|] == hit;
    assert forall i :: 0 <= i < |front| ==> hits[i] == front[i];
    assert FirstIndex(hits, Resolves) == Some(|front|);
  }
}
