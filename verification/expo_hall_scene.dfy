/** The hall's session state: whether the visitor has entered, which booth's
    popup is open, and whether the movement controls are mounted
    (components/expo/ExpoHallScene.tsx). */
module ExpoHallScene {

  import opened Optional
  import opened Booth
  import opened Versions
  import InteractionManager
  import PlayerControls

  /** The six booths of the hall. */
  const BOOTHS_DATA: seq<BoothData> := [
    BoothData(1, "TechCorp", "#00ffff", Vec3(-12.0, 0.0, -5.0)),
    BoothData(2, "InnovateX", "#00ffff", Vec3(-12.0, 0.0, -25.0)),
    BoothData(3, "AlphaSystems", "#00ffff", Vec3(-12.0, 0.0, -45.0)),
    BoothData(4, "FutureVis", "#00ffff", Vec3(12.0, 0.0, -5.0)),
    BoothData(5, "GreenEnergy", "#00ffff", Vec3(12.0, 0.0, -25.0)),
    BoothData(6, "BlueSky", "#00ffff", Vec3(12.0, 0.0, -45.0))
  ]

  /** The booth table lists six booths with ids 1 to 6 in order, so ids are
      distinct. */
  lemma BoothIdsDistinct()
    ensures |BOOTHS_DATA| == 6
    ensures forall i :: 0 <= i < |BOOTHS_DATA| ==> BOOTHS_DATA[i].id == i + 1
    ensures forall i, j :: 0 <= i < j < |BOOTHS_DATA| ==> BOOTHS_DATA[i].id != BOOTHS_DATA[j].id
  {
  }

  /** The component's two pieces of state. */
  datatype Session = Session(hasEntered: bool, selectedBooth: Option<BoothData>)

  const INITIAL_SESSION: Session := Session(false, None)

  /** Movement controls are rendered only after entering and while no popup
      is open. */
  predicate ControlsActive(s: Session) {
    s.hasEntered && s.selectedBooth.None?
  }

  predicate PopupShown(s: Session) {
    s.selectedBooth.Some?
  }

  /** The session, the resolver's hover state, and the state of the movement
      controls while they are mounted. */
  datatype Hall = Hall(
    session: Session,
    hovered: Option<BoothData>,
    controls: Option<PlayerControls.ControlsState>)

  predicate Mounted(h: Hall) {
    h.controls.Some? <==> ControlsActive(h.session)
  }

  const INITIAL_HALL: Hall := Hall(INITIAL_SESSION, None, None)

  /** What a click lands on. Each target with a handler of its own runs that
      handler first; the click then bubbles up to the window, where the
      resolver's handler runs for every click. */
  datatype ClickTarget =
    | EnterButton          // the welcome modal's enter button
    | BoothGroup(booth: BoothData)  // a booth's group, whose handler selects its own record
    | CloseButton          // the popup's close button
    | Elsewhere            // anything without a click handler of its own

  datatype HallEvent =
    | Click(target: ClickTarget)                         // one click of the mouse
    | RayHits(hits: seq<AncestorChain>)                  // one resolver frame
    | Key(event: PlayerControls.KeyEvent)                // a key event for the controls

  /** Mounting and unmounting the controls after a session change: a
      component that stays mounted keeps its state, a newly mounted one
      starts fresh, an unmounted one is gone. */
  function Reconcile(controls: Option<PlayerControls.ControlsState>, s: Session): Option<PlayerControls.ControlsState> {
    if !ControlsActive(s) then None
    else if controls.Some? then controls
    else Some(PlayerControls.MOUNTED)
  }

  function WithSession(h: Hall, s: Session): Hall {
    Hall(s, h.hovered, Reconcile(h.controls, s))
  }

  /** The clicked element's own handler. */
  function TargetHandler(h: Hall, t: ClickTarget): (r: Hall)
    requires Mounted(h)
    ensures Mounted(r) && r.hovered == h.hovered
    ensures r.session.hasEntered <==> h.session.hasEntered || t.EnterButton?
    ensures t.EnterButton? || t.Elsewhere? ==> r.session.selectedBooth == h.session.selectedBooth
    ensures t.BoothGroup? ==> r.session.selectedBooth == Some(t.booth)
    ensures t.CloseButton? ==> r.session.selectedBooth.None?
    ensures t.Elsewhere? ==> r == h
    // controls that stay mounted keep their state
    ensures ControlsActive(h.session) && ControlsActive(r.session) ==> r.controls == h.controls
  {
    match t
    case EnterButton => WithSession(h, h.session.(hasEntered := true))
    case BoothGroup(b) => WithSession(h, h.session.(selectedBooth := Some(b)))
    case CloseButton => WithSession(h, h.session.(selectedBooth := None))
    case Elsewhere => h
  }

  /** The resolver's window click handler: selects the hovered booth, if any. */
  function WindowHandler(h: Hall): (r: Hall)
    requires Mounted(h)
    ensures Mounted(r) && r.hovered == h.hovered
    ensures r.session.hasEntered == h.session.hasEntered
    ensures r.session.selectedBooth == (if h.hovered.Some? then h.hovered else h.session.selectedBooth)
    ensures h.hovered.None? ==> r == h
    ensures ControlsActive(h.session) && ControlsActive(r.session) ==> r.controls == h.controls
  {
    match InteractionManager.Click(h.hovered)
    case Ignored => h
    case Selected(b) => WithSession(h, h.session.(selectedBooth := Some(b)))
  }

  /** One event. A click runs its target's handler and then, since none of
      the handlers stops the click from bubbling, the window handler. */
  function Step(h: Hall, e: HallEvent): (r: Hall)
    requires Mounted(h)
    ensures Mounted(r)
    // entering is the only way in, and there is no way out
    ensures r.session.hasEntered <==> h.session.hasEntered || e == Click(EnterButton)
    // a hovered booth wins every click, whatever was clicked
    ensures e.Click? && h.hovered.Some? ==> r.session.selectedBooth == h.hovered
    ensures e.Click? && h.hovered.None? ==>
              r.session.selectedBooth ==
              (match e.target
               case BoothGroup(b) => Some(b)
               case CloseButton => None
               case _ => h.session.selectedBooth)
    // a resolver frame changes the hover state and nothing else
    ensures e.RayHits? ==> r == h.(hovered := InteractionManager.Resolve(e.hits))
    // a click never changes the hover state, and controls that stay mounted
    // keep their state
    ensures e.Click? ==> r.hovered == h.hovered
    ensures e.Click? && ControlsActive(h.session) && ControlsActive(r.session) ==> r.controls == h.controls
    // key events reach the controls only while they are mounted
    ensures e.Key? && !ControlsActive(h.session) ==> r == h
    ensures e.Key? && ControlsActive(h.session) ==>
              r == h.(controls := Some(h.controls.value.(flags := PlayerControls.OnKey(h.controls.value.flags, e.event))))
    // a remount starts with no key held and at rest
    ensures !ControlsActive(h.session) && ControlsActive(r.session) ==> r.controls == Some(PlayerControls.MOUNTED)
  {
    match e
    case Click(t) => WindowHandler(TargetHandler(h, t))
    case RayHits(hits) =>
      h.(hovered := InteractionManager.ApplyHover(h.hovered,
           InteractionManager.HoverChange(h.hovered, InteractionManager.Resolve(hits))))
    case Key(k) =>
      if h.controls.Some? then
        h.(controls := Some(h.controls.value.(flags := PlayerControls.OnKey(h.controls.value.flags, k))))
      else h
  }

  /** The step with the close button's click kept from bubbling to the
      window, so that closing the popup is not undone by the window handler. */
  function StepCorrected(h: Hall, e: HallEvent): (r: Hall)
    requires Mounted(h)
    ensures Mounted(r)
    ensures r.session.hasEntered <==> h.session.hasEntered || e == Click(EnterButton)
    ensures e == Click(CloseButton) ==> !PopupShown(r.session) && r.hovered == h.hovered
    ensures e != Click(CloseButton) ==> r == Step(h, e)
  {
    if e == Click(CloseButton) then TargetHandler(h, CloseButton) else Step(h, e)
  }

  /** The step a replay uses: the page as written, or with the close
      button corrected. */
  function StepWith(v: Version, h: Hall, e: HallEvent): (r: Hall)
    requires Mounted(h)
    ensures Mounted(r)
    ensures r.session.hasEntered <==> h.session.hasEntered || e == Click(EnterButton)
  {
    match v
    case AsWritten => Step(h, e)
    case Corrected => StepCorrected(h, e)
  }

  /** A sequence of events applied in order. */
  function Replay(v: Version, h: Hall, es: seq<HallEvent>): (r: Hall)
    requires Mounted(h)
    ensures Mounted(r)
    ensures r.session.hasEntered <==> h.session.hasEntered || exists i :: 0 <= i < |es| && es[i] == Click(EnterButton)
    decreases |es|
  {
    if |es| == 0 then h
    else
      var r := Replay(v, StepWith(v, h, es[0]), es[1..]);
      assert forall i :: 1 <= i < |es| ==> es[i] == es[1..][i - 1];
      r
  }

  /** From the initial hall no movement controls exist until the enter
      button is clicked. */
  lemma NoControlsBeforeEntering(v: Version, es: seq<HallEvent>)
    requires forall i :: 0 <= i < |es| ==> es[i] != Click(EnterButton)
    ensures Replay(v, INITIAL_HALL, es).controls.None?
    ensures !Replay(v, INITIAL_HALL, es).session.hasEntered
  {
  }

  /** Closing a popup after entering, with no booth under the centre ray,
      brings the controls back fresh: no key the visitor held before the
      popup opened is still held. */
  lemma ClosingPopupRemountsControls(h: Hall)
    requires Mounted(h) && h.session.hasEntered && PopupShown(h.session)
    requires h.hovered.None?
    ensures Step(h, Click(CloseButton)).controls == Some(PlayerControls.MOUNTED)
    ensures ControlsActive(Step(h, Click(CloseButton)).session)
  {
  }

  /** As written, the close button does not close the popup while the
      centre ray rests on a booth: the window handler selects that booth
      again in the same click, and the controls stay unmounted. Since the
      camera cannot turn while the popup is open, this is the state right
      after a crosshair selection. */
  lemma CloseButtonReopensHoveredBooth(h: Hall)
    requires Mounted(h) && h.session.hasEntered && PopupShown(h.session)
    requires h.hovered.Some?
    ensures Step(h, Click(CloseButton)).session.selectedBooth == h.hovered
    ensures Step(h, Click(CloseButton)).controls.None?
  {
  }

  /** A popup opened by the crosshair and then closed, as written: pressing
      the close button right after selecting the booth under the ray leaves
      that booth's popup open. */
  lemma CrosshairPopupCannotBeClosed(h: Hall, hits: seq<AncestorChain>)
    requires Mounted(h) && h.session.hasEntered
    requires InteractionManager.Resolve(hits).Some?
    ensures var shown := Step(Step(h, RayHits(hits)), Click(Elsewhere));
            && shown.session.selectedBooth == InteractionManager.Resolve(hits)
            && Step(shown, Click(CloseButton)).session.selectedBooth == InteractionManager.Resolve(hits)
            && Step(shown, Click(CloseButton)).controls.None?
  {
    var shown := Step(Step(h, RayHits(hits)), Click(Elsewhere));
    CloseButtonReopensHoveredBooth(shown);
  }

  /** With the correction, the close button closes the popup and remounts
      the controls fresh, whatever the centre ray rests on. */
  lemma CorrectedCloseRemountsControls(h: Hall)
    requires Mounted(h) && h.session.hasEntered && PopupShown(h.session)
    ensures !PopupShown(StepCorrected(h, Click(CloseButton)).session)
    ensures StepCorrected(h, Click(CloseButton)).controls == Some(PlayerControls.MOUNTED)
  {
  }

  /** With the correction, a popup opened by the crosshair can be closed. */
  lemma CorrectedCrosshairPopupCloses(h: Hall, hits: seq<AncestorChain>)
    requires Mounted(h) && h.session.hasEntered
    requires InteractionManager.Resolve(hits).Some?
    ensures var shown := Replay(Corrected, h, [RayHits(hits), Click(Elsewhere)]);
            && shown.session.selectedBooth == InteractionManager.Resolve(hits)
            && Replay(Corrected, shown, [Click(CloseButton)]).controls == Some(PlayerControls.MOUNTED)
  {
    var shown := Replay(Corrected, h, [RayHits(hits), Click(Elsewhere)]);
    var aimed := StepCorrected(h, RayHits(hits));
    assert [RayHits(hits), Click(Elsewhere)][1..] == [Click(Elsewhere)];
    assert shown == Replay(Corrected, aimed, [Click(Elsewhere)]);
    assert [Click(Elsewhere)][1..] == [];
    assert shown == StepCorrected(StepCorrected(h, RayHits(hits)), Click(Elsewhere));
    CorrectedCloseRemountsControls(shown);
    assert Replay(Corrected, shown, [Click(CloseButton)]) == StepCorrected(shown, Click(CloseButton));
  }

  /** Whether the visitor clicks the booth under the centre ray or anywhere
      else, the same record is selected: every booth is rendered with its
      own record as its group's descriptor, and a hit on one of its parts
      walks up to that group. */
  lemma DirectClickMatchesCrosshair(h: Hall, i: nat, front: seq<AncestorChain>,
                                    parts: AncestorChain, outer: AncestorChain, rest: seq<AncestorChain>)
    requires Mounted(h) && i < |BOOTHS_DATA|
    requires forall k :: 0 <= k < |front| ==> !InteractionManager.Resolves(front[k])
    requires forall m :: 0 <= m < |parts| ==> parts[m] == PLAIN
    ensures var aimed := Step(h, RayHits(front + [parts + [BoothTag(Some(BOOTHS_DATA[i]))] + outer] + rest));
            && Step(aimed, Click(BoothGroup(BOOTHS_DATA[i]))).session ==
               Step(aimed, Click(Elsewhere)).session
            && Step(aimed, Click(Elsewhere)).session.selectedBooth == Some(BOOTHS_DATA[i])
  {
    var hit := parts + [BoothTag(Some(BOOTHS_DATA[i]))] + outer;
    InteractionManager.InnermostTagWins(parts, BoothTag(Some(BOOTHS_DATA[i])), outer);
    InteractionManager.NearestResolvingHitWins(front, hit, rest);
  }
}
