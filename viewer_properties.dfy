/**
 * What each handler of the comparison page does to the two slots, the scene and the
 * disposals, beyond keeping the page invariant. Several of these properties record what
 * the handlers keep that a reader might expect them to drop: flags survive a reload or
 * an alignment, alignment disposes the old mesh's geometry but not its material, and the
 * update call in `clearFile` changes nothing.
 */
module ViewerProperties {
  import opened Wrappers
  import opened Meshes
  import opened OverlayGeometry
  import opened VertexMatching
  import opened Alignment
  import opened Viewer

  /** The objects in `ids` are out of the scene, with their geometry and material disposed. */
  predicate Gone(ids: set<ObjId>, r: Page) {
    forall o :: o in ids ==> o !in r.scene && o in r.disposedGeometry && o in r.disposedMaterial
  }

  /** `r` comes after `p`: disposals are kept, and every object new to the scene has a later serial. */
  predicate Grows(p: Page, r: Page) {
    && p.disposedGeometry <= r.disposedGeometry && p.disposedMaterial <= r.disposedMaterial
    && p.nextSerial <= r.nextSerial
    && forall o :: o in r.scene && o !in p.scene ==> o.serial >= p.nextSerial
  }

  /** The checkboxes and the buttons are as they were. */
  predicate SameControls(p: Page, r: Page) {
    && r.showFileA == p.showFileA && r.showFileB == p.showFileB && r.showMatching == p.showMatching
    && r.buttonsEnabled == p.buttonsEnabled
  }

  lemma GrowsTrans(p: Page, q: Page, r: Page)
    requires Grows(p, q) && Grows(q, r)
    ensures Grows(p, r)
  {
  }

  lemma GoneLater(ids: set<ObjId>, p: Page, r: Page)
    requires Gone(ids, p) && Grows(p, r)
    requires forall o :: o in ids ==> o.serial < p.nextSerial
    ensures Gone(ids, r)
  {
  }

  lemma StepGrows(p: Page, slot: Slot, st: SlotState, removed: set<ObjId>, material: bool, added: set<ObjId>, serials: nat)
    requires forall o :: o in added ==> o.serial >= p.nextSerial
    ensures Grows(p, Step(p, slot, st, removed, material, added, serials))
    ensures SameControls(p, Step(p, slot, st, removed, material, added, serials))
  {
  }

  // The stages of `updateMatchingVisualization`.

  lemma RemoveOverlayEffect(p: Page, slot: Slot)
    ensures var r := RemoveOverlay(p, slot);
      && SlotOf(r, slot) == SlotOf(p, slot).(matchingMesh := None) && SlotOf(r, Other(slot)) == SlotOf(p, Other(slot))
      && Gone(OverlayIds(SlotOf(p, slot)), r) && Grows(p, r) && SameControls(p, r) && r.nextSerial == p.nextSerial
  {
  }

  lemma AddOverlayEffect(p: Page, slot: Slot)
    requires SlotOf(p, slot).mesh.Some? && SlotOf(p, slot).matchingData.Some?
    ensures var r := AddOverlay(p, slot);
      && SlotOf(r, slot) == Overlaid(SlotOf(p, slot), slot, NextId(p, slot, Overlay))
      && SlotOf(r, Other(slot)) == SlotOf(p, Other(slot))
      && Grows(p, r) && SameControls(p, r) && r.nextSerial == p.nextSerial + 1
  {
    var id := NextId(p, slot, Overlay);
    StepGrows(p, slot, Overlaid(SlotOf(p, slot), slot, id), {}, true, {id}, 1);
  }

  lemma AddMatchingOnlyEffect(p: Page, slot: Slot)
    requires SlotOf(p, slot).mesh.Some? && SlotOf(p, slot).matchingData.Some? && SlotOf(p, slot).matchingMesh.Some?
    ensures var r := AddMatchingOnly(p, slot); var st := SlotOf(p, slot);
      && SlotOf(r, slot) == (if |KeptTriangles(st)| > 0 then WithChild(st, NextId(p, slot, MatchingOnlyPart), KeptTriangles(st)) else st)
      && SlotOf(r, Other(slot)) == SlotOf(p, Other(slot))
      && Grows(p, r) && SameControls(p, r) && r.nextSerial <= p.nextSerial + 1
  {
    var st := SlotOf(p, slot);
    if |KeptTriangles(st)| > 0 {
      var id := NextId(p, slot, MatchingOnlyPart);
      StepGrows(p, slot, WithChild(st, id, KeptTriangles(st)), {}, true, {id}, 1);
    }
  }

  /** A slot that gets a new overlay and then, when some triangle is kept, a matching-only child, ends up as `Refreshed` says. */
  lemma OverlayRefreshed(st: SlotState, slot: Slot, showFile: bool, bound: nat, overlay: ObjId, child: ObjId)
    requires st.mesh.Some? && st.matchingData.Some?
    requires overlay.serial >= bound && child.serial >= bound
    ensures var o := Overlaid(st.(matchingMesh := None), slot, overlay);
      Refreshed(st, if |KeptTriangles(o)| > 0 then WithChild(o, child, KeptTriangles(o)) else o, slot, showFile, true, bound)
  {
    var o := Overlaid(st.(matchingMesh := None), slot, overlay);
    assert IndexArray(o.mesh.value) == IndexArray(st.mesh.value);
  }

  /** A slot whose overlay is removed and whose base visibility follows its checkbox ends up as `Refreshed` says. */
  lemma HiddenRefreshed(st: SlotState, slot: Slot, showFile: bool, bound: nat)
    requires st.mesh.Some? && st.matchingData.Some?
    ensures Refreshed(st, Revisible(st.(matchingMesh := None), showFile), slot, showFile, false, bound)
  {
  }

  /**
   * `updateMatchingVisualization` does nothing unless both slots have flags. Otherwise each
   * slot ends up as `Refreshed` says for the overlay checkbox. The old overlays and their
   * children are out of the scene, with their geometry and material disposed. The
   * checkboxes and buttons are unchanged.
   */
  lemma UpdateEffect(p: Page)
    requires SceneSound(p)
    ensures !BothFlags(p) ==> UpdateVisualization(p) == p
    ensures BothFlags(p) ==> var r := UpdateVisualization(p);
      && Refreshed(p.slotA, r.slotA, A, p.showFileA, p.showMatching, p.nextSerial)
      && Refreshed(p.slotB, r.slotB, B, p.showFileB, p.showMatching, p.nextSerial)
      && Gone(OverlayIds(p.slotA) + OverlayIds(p.slotB), r)
      && SameControls(p, r)
  {
    if BothFlags(p) {
      var ids := OverlayIds(p.slotA) + OverlayIds(p.slotB);
      Tags(p.slotA, A, p.nextSerial);
      Tags(p.slotB, B, p.nextSerial);
      RemoveOverlayEffect(p, A);
      var q1 := RemoveOverlay(p, A);
      RemoveOverlayEffect(q1, B);
      var q := RemoveOverlay(q1, B);
      GrowsTrans(p, q1, q);
      GoneLater(OverlayIds(p.slotA), q1, q);
      assert Gone(ids, q);
      var r := UpdateVisualization(p);
      if q.showMatching {
        AddOverlayEffect(q, A);
        var r1 := AddOverlay(q, A);
        AddOverlayEffect(r1, B);
        var r2 := AddOverlay(r1, B);
        AddMatchingOnlyEffect(r2, A);
        var r3 := AddMatchingOnly(r2, A);
        AddMatchingOnlyEffect(r3, B);
        assert r == AddMatchingOnly(r3, B);
        GrowsTrans(q, r1, r2);
        GrowsTrans(q, r2, r3);
        GrowsTrans(q, r3, r);
        GoneLater(ids, q, r);
        OverlayRefreshed(p.slotA, A, p.showFileA, p.nextSerial, NextId(q, A, Overlay), NextId(r2, A, MatchingOnlyPart));
        OverlayRefreshed(p.slotB, B, p.showFileB, p.nextSerial, NextId(r1, B, Overlay), NextId(r3, B, MatchingOnlyPart));
      } else {
        HiddenRefreshed(p.slotA, A, p.showFileA, p.nextSerial);
        HiddenRefreshed(p.slotB, B, p.showFileB, p.nextSerial);
      }
    }
  }

  // The handlers.

  /**
   * The load handler. An error result changes nothing. Otherwise the slot's old base mesh,
   * if any, leaves the scene with its geometry and material disposed. A new one built from
   * the data takes its place, with its visibility from the slot's checkbox, and the data
   * and material clone become the slot's. The slot's flags and overlay stay as they were.
   * The other slot's base visibility is re-applied from its checkbox, and the buttons are
   * enabled exactly when the other slot also holds a mesh.
   */
  lemma LoadEffect(p: Page, slot: Slot, result: Result<MeshData, string>)
    requires Coherent(p)
    ensures result.Failure? ==> Load(p, slot, result) == p
    ensures result.Success? ==>
      var r := Load(p, slot, result); var st := SlotOf(p, slot); var id := NextId(p, slot, Base);
      && SlotOf(r, slot) == st.(mesh := Some(BaseMesh(id, result.value, ShowFileOf(p, slot))),
                                meshData := Some(result.value), originalMaterial := Some(id))
      && SlotOf(r, Other(slot)) == Revisible(SlotOf(p, Other(slot)), ShowFileOf(p, Other(slot)))
      && (r.buttonsEnabled <==> SlotOf(p, Other(slot)).mesh.Some?)
  {
  }

  /** The load handler's scene: the old base mesh, if any, is gone and the new one is in. */
  lemma LoadScene(p: Page, slot: Slot, data: MeshData)
    requires SceneSound(p)
    ensures var r := Load(p, slot, Success(data)); var st := SlotOf(p, slot);
      && r.scene == p.scene - BaseIds(st) + {NextId(p, slot, Base)}
      && Gone(BaseIds(st), r)
  {
    var st := SlotOf(p, slot);
    var q := ReplaceBase(p, slot, data);
    var r := Load(p, slot, Success(data));
    assert r.scene == q.scene && r.disposedGeometry == q.disposedGeometry && r.disposedMaterial == q.disposedMaterial;
    assert q.disposedGeometry == p.disposedGeometry + BaseIds(st) && q.disposedMaterial == p.disposedMaterial + BaseIds(st);
    Tags(st, slot, p.nextSerial);
  }

  /**
   * Alignment. Nothing changes unless both slots hold data and the backend answered. Then
   * B's base mesh leaves the scene with its geometry disposed and its material not disposed.
   * A new mesh built from the aligned data takes its place, and the data becomes B's. B's
   * flags, overlay and material clone stay. Both base meshes get their checkbox visibility.
   */
  lemma AlignEffect(p: Page, result: Result<Aligned, string>)
    requires Coherent(p)
    ensures !BothData(p) || result.Failure? ==> Align(p, result) == p
    ensures BothData(p) && result.Success? ==>
      var r := Align(p, result); var gone := p.slotB.mesh.value.id; var id := NextId(p, B, Base);
      && r.slotA == Revisible(p.slotA, p.showFileA)
      && r.slotB == p.slotB.(mesh := Some(BaseMesh(id, result.value.mesh, p.showFileB)), meshData := Some(result.value.mesh))
      && r.scene == p.scene - {gone} + {id}
      && gone in r.disposedGeometry && gone !in r.disposedMaterial
      && r.buttonsEnabled == p.buttonsEnabled
  {
  }

  /**
   * With the backend's own alignment of the two slots' data, B's new base mesh has the same
   * index array as before and the registration's vertices, so B's triangles are kept.
   */
  lemma AlignKeepsTriangles(p: Page, registration: Option<Registration>)
    requires Coherent(p) && BothData(p)
    ensures var result := AlignMeshes(p.slotA.meshData.value, p.slotB.meshData.value, registration);
      result.Success? ==>
        var m := Align(p, result).slotB.mesh;
        && m.Some?
        && IndexArray(m.value) == IndexArray(p.slotB.mesh.value)
        && m.value.geometry.vertices == registration.value.vertices
  {
    AlignEffect(p, AlignMeshes(p.slotA.meshData.value, p.slotB.meshData.value, registration));
  }

  /** The page after the backend's flags are stored in both slots. */
  function WithFlags(p: Page, m: Matching): Page {
    p.(slotA := p.slotA.(matchingData := Some(m.flagsA)), slotB := p.slotB.(matchingData := Some(m.flagsB)))
  }

  /**
   * `findMatching`. Nothing changes unless both slots hold data and the backend answered.
   * Then both slots get their flags, and only that changes when the overlay is off. When
   * the overlay is on, both slots are redrawn from the new flags as `Refreshed` says, and the
   * old overlays are gone.
   */
  lemma MatchedEffect(p: Page, result: Result<Matching, string>)
    requires Coherent(p)
    ensures !BothData(p) || result.Failure? ==> Matched(p, result) == p
    ensures BothData(p) && result.Success? ==>
      var r := Matched(p, result); var q := WithFlags(p, result.value);
      && (!p.showMatching ==> r == q)
      && (p.showMatching ==>
            && Refreshed(q.slotA, r.slotA, A, p.showFileA, true, p.nextSerial)
            && Refreshed(q.slotB, r.slotB, B, p.showFileB, true, p.nextSerial)
            && Gone(OverlayIds(p.slotA) + OverlayIds(p.slotB), r))
  {
    if BothData(p) && result.Success? {
      var q := WithFlags(p, result.value);
      assert SlotIds(q.slotA) == SlotIds(p.slotA) && SlotIds(q.slotB) == SlotIds(p.slotB);
      assert SceneSound(q);
      UpdateEffect(q);
    }
  }

  /** The distances of one slot's vertices to the other mesh. */
  function DistancesOf(slot: Slot, distancesA: seq<real>, distancesB: seq<real>): seq<real> {
    if slot == A then distancesA else distancesB
  }

  /**
   * End to end: after `findMatching` with the backend's answer for the two slots' data and
   * the overlay on, each vertex of a slot's overlay has the match colour exactly when its
   * distance to the other mesh is within the threshold, and the slot's own colour otherwise.
   */
  lemma OverlayShowsDistances(p: Page, distancesA: seq<real>, distancesB: seq<real>, threshold: real, slot: Slot, i: nat)
    requires Coherent(p) && BothData(p) && p.showMatching
    requires |distancesA| == VertexCount(p.slotA.meshData.value) && |distancesB| == VertexCount(p.slotB.meshData.value)
    requires i < VertexCount(SlotOf(p, slot).meshData.value)
    ensures var result := FindMatchingVertices(p.slotA.meshData.value.vertices, p.slotB.meshData.value.vertices,
                                               distancesA, distancesB, threshold);
      result.Success? ==>
        var ov := SlotOf(Matched(p, result), slot).matchingMesh;
        && ov.Some? && 3 * i + 3 <= |ov.value.colors|
        && ov.value.colors[3 * i..3 * i + 3] == Components(ColorOf(slot, DistancesOf(slot, distancesA, distancesB)[i] <= threshold))
  {
    var dataA, dataB := p.slotA.meshData.value, p.slotB.meshData.value;
    var result := FindMatchingVertices(dataA.vertices, dataB.vertices, distancesA, distancesB, threshold);
    if result.Success? {
      FindMatchingSpec(dataA.vertices, dataB.vertices, distancesA, distancesB, threshold);
      MatchedEffect(p, result);
      var q := WithFlags(p, result.value);
      var flags := SlotOf(q, slot).matchingData.value;
      var n := PositionCount(SlotOf(q, slot).mesh.value);
      ColorBufferAt(slot, flags, n, i);
      assert FlagAt(flags, i) <==> DistancesOf(slot, distancesA, distancesB)[i] <= threshold;
    }
  }

  /**
   * End to end: after `findMatching` with the overlay on, every vertex that a slot's
   * matching-only child draws is within the threshold of the other mesh.
   */
  lemma ChildShowsMatches(p: Page, distancesA: seq<real>, distancesB: seq<real>, threshold: real, slot: Slot, k: nat)
    requires Coherent(p) && BothData(p) && p.showMatching
    requires |distancesA| == VertexCount(p.slotA.meshData.value) && |distancesB| == VertexCount(p.slotB.meshData.value)
    ensures var result := FindMatchingVertices(p.slotA.meshData.value.vertices, p.slotB.meshData.value.vertices,
                                               distancesA, distancesB, threshold);
      result.Success? ==>
        var ov := SlotOf(Matched(p, result), slot).matchingMesh;
        ov.Some? && ov.value.matchingOnly.Some? && k < |ov.value.matchingOnly.value.index| ==>
          var v := ov.value.matchingOnly.value.index[k];
          v < |DistancesOf(slot, distancesA, distancesB)| && DistancesOf(slot, distancesA, distancesB)[v] <= threshold
  {
    var dataA, dataB := p.slotA.meshData.value, p.slotB.meshData.value;
    var result := FindMatchingVertices(dataA.vertices, dataB.vertices, distancesA, distancesB, threshold);
    if result.Success? {
      FindMatchingSpec(dataA.vertices, dataB.vertices, distancesA, distancesB, threshold);
      MatchedEffect(p, result);
      var q := WithFlags(p, result.value);
      var flags := SlotOf(q, slot).matchingData.value;
      var index := IndexArray(SlotOf(q, slot).mesh.value);
      MatchingOnlySound(flags, index, Passes(|index|));
    }
  }

  /**
   * `toggleMatchingThreshold`. The overlay checkbox takes the new state. When both slots have
   * flags, both are redrawn for it as `Refreshed` says, and the old overlays are gone.
   * Otherwise nothing else changes, so unchecking the box then leaves any overlay in place.
   */
  lemma ToggleEffect(p: Page, checked: bool)
    requires SceneSound(p)
    ensures !BothFlags(p) ==> Toggle(p, checked) == p.(showMatching := checked)
    ensures BothFlags(p) ==> var r := Toggle(p, checked);
      && r.showMatching == checked
      && Refreshed(p.slotA, r.slotA, A, p.showFileA, checked, p.nextSerial)
      && Refreshed(p.slotB, r.slotB, B, p.showFileB, checked, p.nextSerial)
      && Gone(OverlayIds(p.slotA) + OverlayIds(p.slotB), r)
  {
    UpdateEffect(p.(showMatching := checked));
  }

  /**
   * `clearFile`. The slot's base mesh, if any, leaves the scene with its geometry and material
   * disposed, and the slot's mesh, data, material clone and flags are dropped. The update
   * call that follows changes nothing, because the slot no longer has flags. So both slots'
   * overlays stay in the scene, and the other slot is untouched. The buttons are disabled.
   */
  lemma ClearEffect(p: Page, slot: Slot)
    requires Coherent(p)
    ensures var r := Clear(p, slot); var st := SlotOf(p, slot);
      && SlotOf(r, slot) == st.(mesh := None, meshData := None, originalMaterial := None, matchingData := None)
      && SlotOf(r, Other(slot)) == SlotOf(p, Other(slot))
      && r.scene == p.scene - BaseIds(st)
      && Gone(BaseIds(st), r)
      && !r.buttonsEnabled
  {
    var q := DropBase(p, slot);
    DropBaseEffect(p, slot);
    assert !BothFlags(q);
    assert RedrawIfOverlay(q) == q;
  }

  lemma DropBaseEffect(p: Page, slot: Slot)
    requires SlotValid(SlotOf(p, slot), slot, p.nextSerial)
    ensures var q := DropBase(p, slot); var st := SlotOf(p, slot);
      && SlotOf(q, slot) == Cleared(st) && SlotOf(q, Other(slot)) == SlotOf(p, Other(slot))
      && q.scene == p.scene - BaseIds(st)
      && q.disposedGeometry == p.disposedGeometry + BaseIds(st) && q.disposedMaterial == p.disposedMaterial + BaseIds(st)
      && q.buttonsEnabled == p.buttonsEnabled
  {
  }

  /** Each slot has at most one overlay in the scene: the one its globals refer to. */
  lemma OneOverlayPerSlot(p: Page, o: ObjId)
    requires SceneSound(p) && o in p.scene && o.kind == Overlay
    ensures SlotOf(p, o.slot).matchingMesh.Some? && o == SlotOf(p, o.slot).matchingMesh.value.id
  {
    Tags(p.slotA, A, p.nextSerial);
    Tags(p.slotB, B, p.nextSerial);
  }
}
