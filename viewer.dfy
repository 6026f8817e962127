/**
 * The client's two-slot comparison state. For each slot the page keeps a base mesh in
 * the scene, the mesh data it was built from, a clone of its original material, the
 * per-vertex match flags, and an overlay mesh that may carry a matching-only child.
 * Each handler is one atomic step that changes this state and the scene. The scene is a
 * set of object ids, and every `dispose()` call marks a geometry or a material as disposed.
 *
 * Backend results arrive as parameters, and checkbox states are fields.
 */
module Viewer {
  import opened Wrappers
  import opened Meshes
  import opened OverlayGeometry
  import opened VertexMatching
  import opened Alignment

  /** What a scene object is: a slot's base mesh, its overlay, or the overlay's matching-only child. */
  datatype Kind = Base | Overlay | MatchingOnlyPart

  /** A scene object, identified by its creation serial, its slot and its kind. */
  datatype ObjId = ObjId(serial: nat, slot: Slot, kind: Kind)

  /** A base mesh: its id, the mesh dictionary its geometry was built from, and whether it is visible. */
  datatype BaseMesh = BaseMesh(id: ObjId, geometry: MeshData, visible: bool)

  /**
   * `geometry.attributes.position.count`. Three.js divides the array length by three without
   * flooring; the two agree on vertex lists of whole triples, which both readers produce
   * (`StlReader.StlShape`, `ObjReader.ObjShape`).
   */
  function PositionCount(m: BaseMesh): nat {
    VertexCount(m.geometry)
  }

  /** `geometry.index.array`, the `Uint32Array` built from the index list. */
  function IndexArray(m: BaseMesh): seq<nat> {
    IndexBuffer(m.geometry.indices)
  }

  /** The translucent mesh of the triangles whose three vertices all matched. */
  datatype MatchingOnlyMesh = MatchingOnlyMesh(id: ObjId, index: seq<nat>)

  /** An overlay: a copy of the base geometry with the per-vertex colour buffer, and its optional `.matchingOnly` child. */
  datatype OverlayMesh = OverlayMesh(id: ObjId, colors: seq<real>, matchingOnly: Option<MatchingOnlyMesh>)

  /** The globals of one slot: `mesh`, `meshData`, `originalMaterial`, `matchingData` and `matchingMesh`. */
  datatype SlotState = SlotState(mesh: Option<BaseMesh>, meshData: Option<MeshData>, originalMaterial: Option<ObjId>,
                                 matchingData: Option<seq<bool>>, matchingMesh: Option<OverlayMesh>)

  const EmptySlot := SlotState(None, None, None, None, None)

  function Other(slot: Slot): Slot {
    if slot == A then B else A
  }

  /** A slot's base mesh with its visibility set; no change when the slot has none. */
  function Revisible(st: SlotState, visible: bool): SlotState {
    if st.mesh.Some? then st.(mesh := Some(st.mesh.value.(visible := visible))) else st
  }

  function BaseIds(st: SlotState): set<ObjId> {
    if st.mesh.Some? then {st.mesh.value.id} else {}
  }

  function OverlayIds(st: SlotState): set<ObjId> {
    match st.matchingMesh
    case None => {}
    case Some(ov) => {ov.id} + (if ov.matchingOnly.Some? then {ov.matchingOnly.value.id} else {})
  }

  /** The scene objects a slot's globals refer to. */
  function SlotIds(st: SlotState): set<ObjId> {
    BaseIds(st) + OverlayIds(st)
  }

  /** An object id of the given slot and kind, created before `bound`. */
  predicate IdOf(id: ObjId, slot: Slot, kind: Kind, bound: nat) {
    id.slot == slot && id.kind == kind && id.serial < bound
  }

  /**
   * The invariant of one slot. The mesh, its data and its original material are present
   * together, and flags exist only alongside a mesh. The base mesh is the one built from the
   * slot's data. A matching-only child holds whole triangles and is never empty.
   */
  predicate SlotValid(st: SlotState, slot: Slot, bound: nat) {
    && (st.mesh.Some? <==> st.meshData.Some?)
    && (st.mesh.Some? <==> st.originalMaterial.Some?)
    && (st.matchingData.Some? ==> st.mesh.Some?)
    && (st.mesh.Some? ==>
          && IdOf(st.mesh.value.id, slot, Base, bound)
          && st.mesh.value.geometry == st.meshData.value)
    && (st.matchingMesh.Some? ==>
          && IdOf(st.matchingMesh.value.id, slot, Overlay, bound)
          && (st.matchingMesh.value.matchingOnly.Some? ==>
                && IdOf(st.matchingMesh.value.matchingOnly.value.id, slot, MatchingOnlyPart, bound)
                && |st.matchingMesh.value.matchingOnly.value.index| > 0
                && |st.matchingMesh.value.matchingOnly.value.index| % 3 == 0))
  }

  /**
   * What `updateMatchingVisualization` leaves in a slot that has a mesh and flags. With the
   * overlay on, the slot gets a fresh overlay, coloured by its flags, and its base mesh is
   * hidden. It also gets a fresh matching-only child exactly when some triangle has all three
   * vertices flagged. With the overlay off, the slot has no overlay and its base visibility
   * follows its checkbox.
   */
  predicate Refreshed(before: SlotState, after: SlotState, slot: Slot, showFile: bool, showMatching: bool, bound: nat) {
    && before.mesh.Some? && before.matchingData.Some?
    && after.meshData == before.meshData && after.originalMaterial == before.originalMaterial
    && after.matchingData == before.matchingData
    && var m, flags := before.mesh.value, before.matchingData.value;
       if showMatching then
         && after.mesh == Some(m.(visible := false))
         && after.matchingMesh.Some?
         && var ov := after.matchingMesh.value;
            && ov.id.serial >= bound
            && ov.colors == ColorBuffer(slot, flags, PositionCount(m))
            && var kept := MatchingOnly(flags, IndexArray(m), Passes(|IndexArray(m)|));
               && (ov.matchingOnly.Some? <==> kept != [])
               && (ov.matchingOnly.Some? ==> ov.matchingOnly.value.index == kept && ov.matchingOnly.value.id.serial >= bound)
       else
         after.mesh == Some(m.(visible := showFile)) && after.matchingMesh.None?
  }

  /**
   * The page's state: both slots' globals, the scene, the objects whose geometry and whose
   * material have been disposed, the id counter, and the controls the handlers read.
   */
  datatype Page = Page(slotA: SlotState, slotB: SlotState, scene: set<ObjId>,
                       disposedGeometry: set<ObjId>, disposedMaterial: set<ObjId>, nextSerial: nat,
                       showFileA: bool, showFileB: bool, showMatching: bool, buttonsEnabled: bool)

  function SlotOf(p: Page, slot: Slot): SlotState {
    if slot == A then p.slotA else p.slotB
  }

  function ShowFileOf(p: Page, slot: Slot): bool {
    if slot == A then p.showFileA else p.showFileB
  }

  /** `meshDataA && meshDataB`, the guard of the three comparison handlers. */
  predicate BothData(p: Page) {
    p.slotA.meshData.Some? && p.slotB.meshData.Some?
  }

  /** `matchingDataA && matchingDataB`, the guard of `updateMatchingVisualization`. */
  predicate BothFlags(p: Page) {
    p.slotA.matchingData.Some? && p.slotB.matchingData.Some?
  }

  predicate BothMeshes(p: Page) {
    p.slotA.mesh.Some? && p.slotB.mesh.Some?
  }

  /**
   * Each slot is consistent, the scene holds exactly the objects the slot globals refer to,
   * and a disposed geometry or material belongs to an object created earlier and no longer
   * in the scene.
   */
  predicate SceneSound(p: Page) {
    && SlotValid(p.slotA, A, p.nextSerial) && SlotValid(p.slotB, B, p.nextSerial)
    && p.scene == SlotIds(p.slotA) + SlotIds(p.slotB)
    && (forall o :: o in p.disposedGeometry ==> o !in p.scene && o.serial < p.nextSerial)
    && (forall o :: o in p.disposedMaterial ==> o !in p.scene && o.serial < p.nextSerial)
  }

  /** The page invariant: a sound scene, and comparison buttons enabled only while both slots hold a mesh. */
  predicate Coherent(p: Page) {
    SceneSound(p) && (p.buttonsEnabled ==> BothMeshes(p))
  }

  /** The id the next new object gets. */
  function NextId(p: Page, slot: Slot, kind: Kind): ObjId {
    ObjId(p.nextSerial, slot, kind)
  }

  /**
   * One step of a handler on one slot. The slot's globals become `st`. The `removed` objects
   * leave the scene with their geometry disposed, and their material too when `material`
   * holds. The `added` objects enter the scene, taking `serials` new serials.
   */
  function Step(p: Page, slot: Slot, st: SlotState, removed: set<ObjId>, material: bool, added: set<ObjId>, serials: nat): Page {
    var q := if slot == A then p.(slotA := st) else p.(slotB := st);
    q.(scene := p.scene - removed + added,
       disposedGeometry := p.disposedGeometry + removed,
       disposedMaterial := if material then p.disposedMaterial + removed else p.disposedMaterial,
       nextSerial := p.nextSerial + serials)
  }

  /** `updateMeshVisibility`: each base mesh's visibility is set from its checkbox. */
  function WithVisibility(p: Page): Page {
    p.(slotA := Revisible(p.slotA, p.showFileA), slotB := Revisible(p.slotB, p.showFileB))
  }

  /** A slot after the load handler stores a new base mesh, its data and its material clone. */
  function Rebased(st: SlotState, id: ObjId, data: MeshData): SlotState {
    st.(mesh := Some(BaseMesh(id, data, true)), meshData := Some(data), originalMaterial := Some(id))
  }

  /** B's slot after alignment stores a new base mesh and its data; the material clone stays. */
  function Realigned(st: SlotState, id: ObjId, data: MeshData): SlotState {
    st.(mesh := Some(BaseMesh(id, data, true)), meshData := Some(data))
  }

  /** A slot with a new overlay coloured by its flags, and its base mesh hidden. */
  function Overlaid(st: SlotState, slot: Slot, id: ObjId): SlotState
    requires st.mesh.Some? && st.matchingData.Some?
  {
    var m := st.mesh.value;
    st.(matchingMesh := Some(OverlayMesh(id, ColorBuffer(slot, st.matchingData.value, PositionCount(m)), None)),
        mesh := Some(m.(visible := false)))
  }

  /** The triangles of a slot's base mesh whose three vertices are all flagged. */
  function KeptTriangles(st: SlotState): seq<nat>
    requires st.mesh.Some? && st.matchingData.Some?
  {
    var index := IndexArray(st.mesh.value);
    MatchingOnly(st.matchingData.value, index, Passes(|index|))
  }

  /** A slot whose overlay gets a matching-only child. */
  function WithChild(st: SlotState, id: ObjId, kept: seq<nat>): SlotState
    requires st.matchingMesh.Some?
  {
    st.(matchingMesh := Some(st.matchingMesh.value.(matchingOnly := Some(MatchingOnlyMesh(id, kept)))))
  }

  /** A slot after `clearFile` drops its mesh, data, material clone and flags. */
  function Cleared(st: SlotState): SlotState {
    st.(mesh := None, meshData := None, originalMaterial := None, matchingData := None)
  }

  /**
   * The load handler's replacement of a slot's base mesh. The old one, if any, is removed and
   * both its geometry and material disposed; a new one built from the data is added and stored.
   */
  function ReplaceBase(p: Page, slot: Slot, data: MeshData): Page {
    var st := SlotOf(p, slot);
    var id := NextId(p, slot, Base);
    Step(p, slot, Rebased(st, id, data), BaseIds(st), true, {id}, 1)
  }

  /** The buttons are enabled once both slots hold a mesh. */
  function EnableIfBoth(p: Page): Page {
    if BothMeshes(p) then p.(buttonsEnabled := true) else p
  }

  /** The load handler after `process_3d_file` answers for `slot`: an error result changes nothing. */
  function Load(p: Page, slot: Slot, result: Result<MeshData, string>): Page {
    if result.Failure? then p else EnableIfBoth(WithVisibility(ReplaceBase(p, slot, result.value)))
  }

  /**
   * `alignMeshes` after `align_meshes` answers. B's base mesh is removed, and only its geometry
   * is disposed. A mesh built from the aligned data takes its place, and the data becomes B's.
   * B's flags, overlay and material clone stay.
   */
  function Align(p: Page, result: Result<Aligned, string>): Page {
    if !BothData(p) || result.Failure? || p.slotB.mesh.None? then p
    else
      var id := NextId(p, B, Base);
      WithVisibility(Step(p, B, Realigned(p.slotB, id, result.value.mesh), {p.slotB.mesh.value.id}, false, {id}, 1))
  }

  /** Removes a slot's overlay and its matching-only child from the scene, disposing the geometry and material of each. */
  function RemoveOverlay(p: Page, slot: Slot): Page {
    var st := SlotOf(p, slot);
    if st.matchingMesh.None? then p
    else Step(p, slot, st.(matchingMesh := None), OverlayIds(st), true, {}, 0)
  }

  /** Adds a slot's overlay and hides its base mesh, when the slot has a mesh and flags. */
  function AddOverlay(p: Page, slot: Slot): Page {
    var st := SlotOf(p, slot);
    if st.mesh.Some? && st.matchingData.Some? then
      var id := NextId(p, slot, Overlay);
      Step(p, slot, Overlaid(st, slot, id), {}, true, {id}, 1)
    else p
  }

  /** Adds a slot's matching-only child when at least one triangle has all three vertices flagged. */
  function AddMatchingOnly(p: Page, slot: Slot): Page {
    var st := SlotOf(p, slot);
    if st.mesh.Some? && st.matchingData.Some? && st.matchingMesh.Some? && |KeptTriangles(st)| > 0 then
      var id := NextId(p, slot, MatchingOnlyPart);
      Step(p, slot, WithChild(st, id, KeptTriangles(st)), {}, true, {id}, 1)
    else p
  }

  /**
   * `updateMatchingVisualization`. Nothing happens unless both slots have flags. Otherwise
   * both slots' overlays are removed. With the overlay on, each slot then gets a new overlay,
   * and after that a matching-only child. With the overlay off, base visibility follows the
   * checkboxes.
   */
  function UpdateVisualization(p: Page): Page {
    if !BothFlags(p) then p
    else
      var q := RemoveOverlay(RemoveOverlay(p, A), B);
      if q.showMatching then AddMatchingOnly(AddMatchingOnly(AddOverlay(AddOverlay(q, A), B), A), B)
      else WithVisibility(q)
  }

  /** `findMatching` after `find_matching_vertices` answers: the flags are stored, and the overlay is redrawn when it is on. */
  function Matched(p: Page, result: Result<Matching, string>): Page {
    if !BothData(p) || result.Failure? then p
    else
      var q := p.(slotA := p.slotA.(matchingData := Some(result.value.flagsA)),
                  slotB := p.slotB.(matchingData := Some(result.value.flagsB)));
      if q.showMatching then UpdateVisualization(q) else q
  }

  /** `toggleMatchingThreshold` after the overlay checkbox changes. */
  function Toggle(p: Page, checked: bool): Page {
    var q := p.(showMatching := checked);
    if !checked then UpdateVisualization(q)
    else if BothFlags(q) then UpdateVisualization(q)
    else q
  }

  /**
   * `clearFile`. The slot's base mesh is removed with its geometry and material disposed, and
   * its mesh, data, material clone and flags are dropped. The visualization update runs when
   * an overlay exists, and the buttons are disabled when a mesh is missing.
   */
  function Clear(p: Page, slot: Slot): Page {
    DisableUnlessBoth(RedrawIfOverlay(DropBase(p, slot)))
  }

  /** `clearFile`'s removal of the slot's base mesh, when it has one, and of its globals. */
  function DropBase(p: Page, slot: Slot): Page {
    var st := SlotOf(p, slot);
    if st.mesh.Some? then Step(p, slot, Cleared(st), BaseIds(st), true, {}, 0) else p
  }

  /** The visualization update that `clearFile` runs when either slot has an overlay. */
  function RedrawIfOverlay(p: Page): Page {
    if p.slotA.matchingMesh.Some? || p.slotB.matchingMesh.Some? then UpdateVisualization(p) else p
  }

  /** The buttons are disabled when a slot has no mesh. */
  function DisableUnlessBoth(p: Page): Page {
    if p.slotA.mesh.None? || p.slotB.mesh.None? then p.(buttonsEnabled := false) else p
  }

  /** A `showFileA`/`showFileB` checkbox changes, and `updateMeshVisibility` runs. */
  function ShowFileChanged(p: Page, slot: Slot, checked: bool): Page {
    WithVisibility(if slot == A then p.(showFileA := checked) else p.(showFileB := checked))
  }

  // Slot-level facts.

  /** Every object a valid slot refers to carries the slot's tag and an earlier serial; the base mesh is the only `Base` one. */
  lemma Tags(st: SlotState, slot: Slot, n: nat)
    requires SlotValid(st, slot, n)
    ensures forall o :: o in SlotIds(st) ==> o.slot == slot && o.serial < n
    ensures forall o :: o in OverlayIds(st) ==> o.kind != Base
    ensures forall o :: o in BaseIds(st) ==> o.kind == Base
    ensures SlotIds(st) == BaseIds(st) + OverlayIds(st)
  {
  }

  lemma Later(st: SlotState, slot: Slot, n: nat, m: nat)
    requires SlotValid(st, slot, n) && n <= m
    ensures SlotValid(st, slot, m)
  {
  }

  lemma RebasedValid(st: SlotState, slot: Slot, n: nat, data: MeshData)
    requires SlotValid(st, slot, n)
    ensures SlotValid(Rebased(st, ObjId(n, slot, Base), data), slot, n + 1)
    ensures SlotIds(Rebased(st, ObjId(n, slot, Base), data)) == SlotIds(st) - BaseIds(st) + {ObjId(n, slot, Base)}
  {
    Tags(st, slot, n);
  }

  lemma RealignedValid(st: SlotState, slot: Slot, n: nat, data: MeshData)
    requires SlotValid(st, slot, n) && st.mesh.Some? && st.meshData.Some?
    ensures SlotValid(Realigned(st, ObjId(n, slot, Base), data), slot, n + 1)
    ensures SlotIds(Realigned(st, ObjId(n, slot, Base), data)) == SlotIds(st) - {st.mesh.value.id} + {ObjId(n, slot, Base)}
  {
    Tags(st, slot, n);
  }

  lemma UnoverlaidValid(st: SlotState, slot: Slot, n: nat)
    requires SlotValid(st, slot, n)
    ensures SlotValid(st.(matchingMesh := None), slot, n)
    ensures SlotIds(st.(matchingMesh := None)) == SlotIds(st) - OverlayIds(st)
  {
    Tags(st, slot, n);
  }

  lemma OverlaidValid(st: SlotState, slot: Slot, n: nat)
    requires SlotValid(st, slot, n) && st.mesh.Some? && st.matchingData.Some? && st.matchingMesh.None?
    ensures SlotValid(Overlaid(st, slot, ObjId(n, slot, Overlay)), slot, n + 1)
    ensures SlotIds(Overlaid(st, slot, ObjId(n, slot, Overlay))) == SlotIds(st) + {ObjId(n, slot, Overlay)}
  {
  }

  lemma WithChildValid(st: SlotState, slot: Slot, n: nat, kept: seq<nat>)
    requires SlotValid(st, slot, n) && st.matchingMesh.Some? && st.matchingMesh.value.matchingOnly.None?
    requires |kept| > 0 && |kept| % 3 == 0
    ensures SlotValid(WithChild(st, ObjId(n, slot, MatchingOnlyPart), kept), slot, n + 1)
    ensures SlotIds(WithChild(st, ObjId(n, slot, MatchingOnlyPart), kept)) == SlotIds(st) + {ObjId(n, slot, MatchingOnlyPart)}
  {
  }

  lemma ClearedValid(st: SlotState, slot: Slot, n: nat)
    requires SlotValid(st, slot, n) && st.mesh.Some?
    ensures SlotValid(Cleared(st), slot, n)
    ensures SlotIds(Cleared(st)) == SlotIds(st) - BaseIds(st)
  {
    Tags(st, slot, n);
  }

  /** Replacing one slot's objects in a scene made of two slots' objects. */
  lemma SceneSwap(x: set<ObjId>, y: set<ObjId>, x': set<ObjId>, removed: set<ObjId>, added: set<ObjId>)
    requires x' == x - removed + added && removed !! y
    ensures (x + y) - removed + added == x' + y
    ensures (y + x) - removed + added == y + x'
  {
  }

  /** A disposed object of the new page is either one that was already disposed or one that has just left the scene. */
  lemma Disposal(p: Page, r: Page, gone: set<ObjId>, o: ObjId)
    requires p.nextSerial <= r.nextSerial
    requires forall x :: x in p.scene ==> x.serial < p.nextSerial
    requires (o in p.disposedGeometry || o in p.disposedMaterial) ==> o !in p.scene && o.serial < p.nextSerial
    requires gone <= p.scene && gone !! r.scene
    requires o in p.disposedGeometry + gone || o in p.disposedMaterial + gone
    requires o in r.scene && o !in p.scene ==> o.serial >= p.nextSerial
    ensures o !in r.scene && o.serial < r.nextSerial
  {
  }

  /**
   * The step lemma. Suppose the slot's new globals are valid, refer to exactly the old
   * objects minus the removed ones plus the added ones, and the added objects are new.
   * Then the step keeps the scene sound.
   */
  lemma StepSound(p: Page, slot: Slot, st: SlotState, removed: set<ObjId>, material: bool, added: set<ObjId>, serials: nat)
    requires SceneSound(p)
    requires SlotValid(st, slot, p.nextSerial + serials)
    requires SlotIds(st) == SlotIds(SlotOf(p, slot)) - removed + added
    requires removed <= SlotIds(SlotOf(p, slot))
    requires forall o :: o in added ==> p.nextSerial <= o.serial
    ensures SceneSound(Step(p, slot, st, removed, material, added, serials))
  {
    StepValid(p, slot, st, removed, material, added, serials);
    StepSlots(p, slot, st, removed, material, added, serials);
    var r := Step(p, slot, st, removed, material, added, serials);
    Tags(p.slotA, A, p.nextSerial);
    Tags(p.slotB, B, p.nextSerial);
    StepDisposal(p, r, removed);
  }

  /** The slots of a step's result make up its scene. */
  lemma StepSlots(p: Page, slot: Slot, st: SlotState, removed: set<ObjId>, material: bool, added: set<ObjId>, serials: nat)
    requires SlotValid(p.slotA, A, p.nextSerial) && SlotValid(p.slotB, B, p.nextSerial)
    requires p.scene == SlotIds(p.slotA) + SlotIds(p.slotB)
    requires SlotValid(st, slot, p.nextSerial + serials)
    requires SlotIds(st) == SlotIds(SlotOf(p, slot)) - removed + added
    requires removed <= SlotIds(SlotOf(p, slot))
    ensures var r := Step(p, slot, st, removed, material, added, serials);
      r.scene == SlotIds(r.slotA) + SlotIds(r.slotB)
  {
    var r := Step(p, slot, st, removed, material, added, serials);
    Tags(p.slotA, A, p.nextSerial);
    Tags(p.slotB, B, p.nextSerial);
    if slot == A {
      assert removed !! SlotIds(p.slotB);
      SceneSwap(SlotIds(p.slotA), SlotIds(p.slotB), SlotIds(st), removed, added);
      assert r.slotA == st && r.slotB == p.slotB;
    } else {
      assert removed !! SlotIds(p.slotA);
      SceneSwap(SlotIds(p.slotB), SlotIds(p.slotA), SlotIds(st), removed, added);
      assert r.slotB == st && r.slotA == p.slotA;
    }
  }

  lemma StepValid(p: Page, slot: Slot, st: SlotState, removed: set<ObjId>, material: bool, added: set<ObjId>, serials: nat)
    requires SlotValid(p.slotA, A, p.nextSerial) && SlotValid(p.slotB, B, p.nextSerial)
    requires SlotValid(st, slot, p.nextSerial + serials)
    ensures var r := Step(p, slot, st, removed, material, added, serials);
      SlotValid(r.slotA, A, r.nextSerial) && SlotValid(r.slotB, B, r.nextSerial)
  {
    var r := Step(p, slot, st, removed, material, added, serials);
    if slot == A {
      Later(p.slotB, B, p.nextSerial, r.nextSerial);
      assert r.slotA == st && r.slotB == p.slotB;
    } else {
      Later(p.slotA, A, p.nextSerial, r.nextSerial);
      assert r.slotB == st && r.slotA == p.slotA;
    }
  }

  /** The disposals of a step's result concern only objects that are out of its scene. */
  lemma StepDisposal(p: Page, r: Page, removed: set<ObjId>)
    requires p.nextSerial <= r.nextSerial
    requires forall x :: x in p.scene ==> x.serial < p.nextSerial
    requires forall o :: o in p.disposedGeometry ==> o !in p.scene && o.serial < p.nextSerial
    requires forall o :: o in p.disposedMaterial ==> o !in p.scene && o.serial < p.nextSerial
    requires removed <= p.scene && removed !! r.scene
    requires r.disposedGeometry <= p.disposedGeometry + removed && r.disposedMaterial <= p.disposedMaterial + removed
    requires forall o :: o in r.scene && o !in p.scene ==> o.serial >= p.nextSerial
    ensures forall o :: o in r.disposedGeometry ==> o !in r.scene && o.serial < r.nextSerial
    ensures forall o :: o in r.disposedMaterial ==> o !in r.scene && o.serial < r.nextSerial
  {
    forall o | o in r.disposedGeometry
      ensures o !in r.scene && o.serial < r.nextSerial
    {
      Disposal(p, r, removed, o);
    }
    forall o | o in r.disposedMaterial
      ensures o !in r.scene && o.serial < r.nextSerial
    {
      Disposal(p, r, removed, o);
    }
  }

  /** The selected slot of a sound page is valid. */
  lemma SlotOfValid(p: Page, slot: Slot)
    requires SceneSound(p)
    ensures SlotValid(SlotOf(p, slot), slot, p.nextSerial)
  {
  }

  // Every handler keeps the page invariant.

  lemma RevisibleValid(st: SlotState, slot: Slot, n: nat, visible: bool)
    requires SlotValid(st, slot, n)
    ensures SlotValid(Revisible(st, visible), slot, n) && SlotIds(Revisible(st, visible)) == SlotIds(st)
  {
  }

  /** `updateMeshVisibility` keeps the scene sound and changes no mesh's presence. */
  lemma VisibilitySound(p: Page)
    requires SceneSound(p)
    ensures SceneSound(WithVisibility(p)) && (BothMeshes(WithVisibility(p)) <==> BothMeshes(p))
  {
    RevisibleValid(p.slotA, A, p.nextSerial, p.showFileA);
    RevisibleValid(p.slotB, B, p.nextSerial, p.showFileB);
  }

  lemma ReplaceBaseSound(p: Page, slot: Slot, data: MeshData)
    requires SceneSound(p)
    ensures SceneSound(ReplaceBase(p, slot, data))
  {
    SlotOfValid(p, slot);
    var st := SlotOf(p, slot);
    Tags(st, slot, p.nextSerial);
    RebasedValid(st, slot, p.nextSerial, data);
    StepSound(p, slot, Rebased(st, NextId(p, slot, Base), data), BaseIds(st), true, {NextId(p, slot, Base)}, 1);
  }

  /** The load handler keeps the page invariant. */
  lemma LoadCoherent(p: Page, slot: Slot, result: Result<MeshData, string>)
    requires Coherent(p)
    ensures Coherent(Load(p, slot, result))
  {
    if result.Success? {
      ReplaceBaseSound(p, slot, result.value);
      VisibilitySound(ReplaceBase(p, slot, result.value));
    }
  }

  /** Alignment keeps the page invariant. */
  lemma AlignCoherent(p: Page, result: Result<Aligned, string>)
    requires Coherent(p)
    ensures Coherent(Align(p, result))
  {
    if BothData(p) && result.Success? && p.slotB.mesh.Some? {
      var id := NextId(p, B, Base);
      Tags(p.slotB, B, p.nextSerial);
      RealignedValid(p.slotB, B, p.nextSerial, result.value.mesh);
      StepSound(p, B, Realigned(p.slotB, id, result.value.mesh), {p.slotB.mesh.value.id}, false, {id}, 1);
      VisibilitySound(Step(p, B, Realigned(p.slotB, id, result.value.mesh), {p.slotB.mesh.value.id}, false, {id}, 1));
    }
  }

  lemma RemoveOverlaySound(p: Page, slot: Slot)
    requires SceneSound(p)
    ensures var r := RemoveOverlay(p, slot);
      && SceneSound(r)
      && SlotOf(r, slot) == SlotOf(p, slot).(matchingMesh := None) && SlotOf(r, Other(slot)) == SlotOf(p, Other(slot))
      && r.showMatching == p.showMatching && r.showFileA == p.showFileA && r.showFileB == p.showFileB
      && r.buttonsEnabled == p.buttonsEnabled
  {
    var st := SlotOf(p, slot);
    if st.matchingMesh.Some? {
      Tags(st, slot, p.nextSerial);
      UnoverlaidValid(st, slot, p.nextSerial);
      StepSound(p, slot, st.(matchingMesh := None), OverlayIds(st), true, {}, 0);
    }
  }

  lemma AddOverlaySound(p: Page, slot: Slot)
    requires SceneSound(p) && SlotOf(p, slot).matchingMesh.None?
    ensures SceneSound(AddOverlay(p, slot))
  {
    var st := SlotOf(p, slot);
    if st.mesh.Some? && st.matchingData.Some? {
      OverlaidValid(st, slot, p.nextSerial);
      StepSound(p, slot, Overlaid(st, slot, NextId(p, slot, Overlay)), {}, true, {NextId(p, slot, Overlay)}, 1);
    }
  }

  lemma AddOverlayFrame(p: Page, slot: Slot)
    requires SlotOf(p, slot).matchingMesh.None?
    ensures var r := AddOverlay(p, slot);
      && SlotOf(r, Other(slot)) == SlotOf(p, Other(slot))
      && (SlotOf(r, slot).matchingMesh.Some? ==> SlotOf(r, slot).matchingMesh.value.matchingOnly.None?)
      && (SlotOf(r, slot).mesh.Some? <==> SlotOf(p, slot).mesh.Some?)
      && r.showMatching == p.showMatching && r.showFileA == p.showFileA && r.showFileB == p.showFileB
      && r.buttonsEnabled == p.buttonsEnabled
  {
  }

  lemma AddMatchingOnlySound(p: Page, slot: Slot)
    requires SceneSound(p)
    requires SlotOf(p, slot).matchingMesh.Some? ==> SlotOf(p, slot).matchingMesh.value.matchingOnly.None?
    ensures SceneSound(AddMatchingOnly(p, slot))
  {
    SlotOfValid(p, slot);
    var st := SlotOf(p, slot);
    if st.mesh.Some? && st.matchingData.Some? && st.matchingMesh.Some? && |KeptTriangles(st)| > 0 {
      var id := NextId(p, slot, MatchingOnlyPart);
      var kept := KeptTriangles(st);
      WithChildValid(st, slot, p.nextSerial, kept);
      StepSound(p, slot, WithChild(st, id, kept), {}, true, {id}, 1);
    }
  }

  lemma AddMatchingOnlyFrame(p: Page, slot: Slot)
    ensures var r := AddMatchingOnly(p, slot);
      && SlotOf(r, Other(slot)) == SlotOf(p, Other(slot))
      && (SlotOf(r, slot).mesh.Some? <==> SlotOf(p, slot).mesh.Some?)
      && r.showMatching == p.showMatching && r.showFileA == p.showFileA && r.showFileB == p.showFileB
      && r.buttonsEnabled == p.buttonsEnabled
  {
  }

  /** The visualization update keeps the scene sound and leaves every mesh in place. */
  lemma UpdateSound(p: Page)
    requires SceneSound(p)
    ensures var r := UpdateVisualization(p);
      && SceneSound(r)
      && (r.slotA.mesh.Some? <==> p.slotA.mesh.Some?) && (r.slotB.mesh.Some? <==> p.slotB.mesh.Some?)
      && r.buttonsEnabled == p.buttonsEnabled
  {
    if BothFlags(p) {
      RemoveOverlaySound(p, A);
      var q1 := RemoveOverlay(p, A);
      RemoveOverlaySound(q1, B);
      var q := RemoveOverlay(q1, B);
      if q.showMatching {
        AddOverlaySound(q, A);
        AddOverlayFrame(q, A);
        var r1 := AddOverlay(q, A);
        AddOverlaySound(r1, B);
        AddOverlayFrame(r1, B);
        var r2 := AddOverlay(r1, B);
        AddMatchingOnlySound(r2, A);
        AddMatchingOnlyFrame(r2, A);
        var r3 := AddMatchingOnly(r2, A);
        AddMatchingOnlySound(r3, B);
        AddMatchingOnlyFrame(r3, B);
      } else {
        VisibilitySound(q);
      }
    }
  }

  lemma UpdateCoherent(p: Page)
    requires Coherent(p)
    ensures Coherent(UpdateVisualization(p))
  {
    UpdateSound(p);
  }

  /** Storing flags keeps the page invariant. */
  lemma MatchedCoherent(p: Page, result: Result<Matching, string>)
    requires Coherent(p)
    ensures Coherent(Matched(p, result))
  {
    if BothData(p) && result.Success? {
      var q := p.(slotA := p.slotA.(matchingData := Some(result.value.flagsA)),
                  slotB := p.slotB.(matchingData := Some(result.value.flagsB)));
      assert SlotIds(q.slotA) == SlotIds(p.slotA) && SlotIds(q.slotB) == SlotIds(p.slotB);
      assert Coherent(q);
      UpdateCoherent(q);
    }
  }

  /** The overlay checkbox keeps the page invariant. */
  lemma ToggleCoherent(p: Page, checked: bool)
    requires Coherent(p)
    ensures Coherent(Toggle(p, checked))
  {
    UpdateCoherent(p.(showMatching := checked));
  }

  /** Clearing a slot keeps the page invariant. */
  lemma ClearCoherent(p: Page, slot: Slot)
    requires Coherent(p)
    ensures Coherent(Clear(p, slot))
  {
    var q := DropBase(p, slot);
    DropBaseSound(p, slot);
    if q.slotA.matchingMesh.Some? || q.slotB.matchingMesh.Some? {
      UpdateSound(q);
    }
    DisableSound(RedrawIfOverlay(q));
  }

  lemma DisableSound(p: Page)
    requires SceneSound(p)
    ensures Coherent(DisableUnlessBoth(p))
  {
  }

  /** Dropping a slot's base mesh keeps the scene sound. */
  lemma DropBaseSound(p: Page, slot: Slot)
    requires SceneSound(p)
    ensures SceneSound(DropBase(p, slot))
  {
    SlotOfValid(p, slot);
    var st := SlotOf(p, slot);
    if st.mesh.Some? {
      Tags(st, slot, p.nextSerial);
      ClearedValid(st, slot, p.nextSerial);
      StepSound(p, slot, Cleared(st), BaseIds(st), true, {}, 0);
    }
  }

  /** A visibility checkbox keeps the page invariant. */
  lemma ShowFileCoherent(p: Page, slot: Slot, checked: bool)
    requires Coherent(p)
    ensures Coherent(ShowFileChanged(p, slot, checked))
  {
    VisibilitySound(if slot == A then p.(showFileA := checked) else p.(showFileB := checked));
  }

  /**
   * The page's module-level globals and the controls its handlers read, updated in place.
   * Each handler is proved to take the page from `State()` to the transition above, which
   * keeps `Valid()`.
   */
  class ComparisonViewer {
    var slotA: SlotState
    var slotB: SlotState
    var scene: set<ObjId>
    var disposedGeometry: set<ObjId>
    var disposedMaterial: set<ObjId>
    var nextSerial: nat
    var showFileA: bool
    var showFileB: bool
    var showMatching: bool
    var buttonsEnabled: bool

    function State(): Page
      reads this
    {
      Page(slotA, slotB, scene, disposedGeometry, disposedMaterial, nextSerial, showFileA, showFileB, showMatching, buttonsEnabled)
    }

    ghost predicate Valid()
      reads this
    {
      Coherent(State())
    }

    /** An empty page with the given checkbox states and the comparison buttons disabled. */
    constructor(showFileA: bool, showFileB: bool, showMatching: bool)
      ensures Valid()
      ensures State() == Page(EmptySlot, EmptySlot, {}, {}, {}, 0, showFileA, showFileB, showMatching, false)
    {
      slotA, slotB := EmptySlot, EmptySlot;
      scene, disposedGeometry, disposedMaterial := {}, {}, {};
      nextSerial := 0;
      this.showFileA, this.showFileB, this.showMatching := showFileA, showFileB, showMatching;
      buttonsEnabled := false;
    }

    /** Stores a slot's globals. */
    method SetSlot(slot: Slot, st: SlotState)
      modifies this
      ensures State() == if slot == A then old(State()).(slotA := st) else old(State()).(slotB := st)
    {
      if slot == A {
        slotA := st;
      } else {
        slotB := st;
      }
    }

    /** Takes a new object id. */
    method FreshId(slot: Slot, kind: Kind) returns (id: ObjId)
      modifies this
      ensures id == NextId(old(State()), slot, kind)
      ensures State() == old(State()).(nextSerial := old(nextSerial) + 1)
    {
      id := ObjId(nextSerial, slot, kind);
      nextSerial := nextSerial + 1;
    }

    /** `scene.remove(o)` followed by `o.geometry.dispose()`, and `o.material.dispose()` when `material` holds. */
    method Remove(ids: set<ObjId>, material: bool)
      modifies this
      ensures State() == old(State()).(scene := old(scene) - ids, disposedGeometry := old(disposedGeometry) + ids,
                                       disposedMaterial := if material then old(disposedMaterial) + ids else old(disposedMaterial))
    {
      scene := scene - ids;
      disposedGeometry := disposedGeometry + ids;
      if material {
        disposedMaterial := disposedMaterial + ids;
      }
    }

    /** `updateMeshVisibility`. */
    method UpdateMeshVisibility()
      modifies this
      ensures State() == WithVisibility(old(State()))
    {
      if slotA.mesh.Some? {
        slotA := slotA.(mesh := Some(slotA.mesh.value.(visible := showFileA)));
      }
      if slotB.mesh.Some? {
        slotB := slotB.(mesh := Some(slotB.mesh.value.(visible := showFileB)));
      }
    }

    // The handlers' statements, each proved to perform its transition.

    method LoadSteps(slot: Slot, result: Result<MeshData, string>)
      modifies this
      ensures State() == Load(old(State()), slot, result)
    {
      if result.Failure? {
        return;
      }
      ReplaceBaseSteps(slot, result.value);
      UpdateMeshVisibility();
      EnableSteps();
    }

    /** The old base mesh, if any, is removed and disposed; a new one is built, added and stored. */
    method ReplaceBaseSteps(slot: Slot, data: MeshData)
      modifies this
      ensures State() == ReplaceBase(old(State()), slot, data)
    {
      var st := if slot == A then slotA else slotB;
      Remove(BaseIds(st), true);
      var id := FreshId(slot, Base);
      scene := scene + {id};
      SetSlot(slot, Rebased(st, id, data));
    }

    method EnableSteps()
      modifies this
      ensures State() == EnableIfBoth(old(State()))
    {
      if slotA.mesh.Some? && slotB.mesh.Some? {
        buttonsEnabled := true;
      }
    }

    method AlignSteps(result: Result<Aligned, string>)
      modifies this
      ensures State() == Align(old(State()), result)
    {
      if slotA.meshData.None? || slotB.meshData.None? || result.Failure? || slotB.mesh.None? {
        return;
      }
      Remove({slotB.mesh.value.id}, false);
      var id := FreshId(B, Base);
      scene := scene + {id};
      slotB := Realigned(slotB, id, result.value.mesh);
      UpdateMeshVisibility();
    }

    /** Removes a slot's overlay and its matching-only child. */
    method RemoveOverlayOf(slot: Slot)
      modifies this
      ensures State() == RemoveOverlay(old(State()), slot)
    {
      var st := if slot == A then slotA else slotB;
      if st.matchingMesh.Some? {
        Remove(OverlayIds(st), true);
        SetSlot(slot, st.(matchingMesh := None));
      }
    }

    /** Builds a slot's overlay from its flags and hides its base mesh. */
    method AddOverlayOf(slot: Slot)
      modifies this
      ensures State() == AddOverlay(old(State()), slot)
    {
      var st := if slot == A then slotA else slotB;
      if st.mesh.Some? && st.matchingData.Some? {
        var m := st.mesh.value;
        var colors := FillColors(slot, st.matchingData.value, PositionCount(m));
        var id := FreshId(slot, Overlay);
        scene := scene + {id};
        SetSlot(slot, st.(matchingMesh := Some(OverlayMesh(id, colors[..], None)), mesh := Some(m.(visible := false))));
      }
    }

    /** Builds a slot's matching-only child when some triangle has all three vertices flagged. */
    method AddMatchingOnlyOf(slot: Slot)
      modifies this
      ensures State() == AddMatchingOnly(old(State()), slot)
    {
      var st := if slot == A then slotA else slotB;
      if st.mesh.Some? && st.matchingData.Some? && st.matchingMesh.Some? {
        var kept := MatchingOnlyIndices(st.matchingData.value, IndexArray(st.mesh.value));
        if |kept| > 0 {
          var id := FreshId(slot, MatchingOnlyPart);
          scene := scene + {id};
          SetSlot(slot, WithChild(st, id, kept));
        }
      }
    }

    method RedrawSteps()
      modifies this
      ensures State() == UpdateVisualization(old(State()))
    {
      if slotA.matchingData.None? || slotB.matchingData.None? {
        return;
      }
      RemoveOverlayOf(A);
      RemoveOverlayOf(B);
      if showMatching {
        AddOverlayOf(A);
        AddOverlayOf(B);
        AddMatchingOnlyOf(A);
        AddMatchingOnlyOf(B);
      } else {
        UpdateMeshVisibility();
      }
    }

    method MatchSteps(result: Result<Matching, string>)
      modifies this
      ensures State() == Matched(old(State()), result)
    {
      if slotA.meshData.None? || slotB.meshData.None? || result.Failure? {
        return;
      }
      slotA := slotA.(matchingData := Some(result.value.flagsA));
      slotB := slotB.(matchingData := Some(result.value.flagsB));
      if showMatching {
        RedrawSteps();
      }
    }

    method ToggleSteps(checked: bool)
      modifies this
      ensures State() == Toggle(old(State()), checked)
    {
      showMatching := checked;
      if !checked {
        RedrawSteps();
      } else if slotA.matchingData.Some? && slotB.matchingData.Some? {
        RedrawSteps();
      }
    }

    method ClearSteps(slot: Slot)
      modifies this
      ensures State() == Clear(old(State()), slot)
    {
      DropBaseSteps(slot);
      RedrawIfOverlaySteps();
      DisableSteps();
    }

    method DropBaseSteps(slot: Slot)
      modifies this
      ensures State() == DropBase(old(State()), slot)
    {
      var st := if slot == A then slotA else slotB;
      if st.mesh.Some? {
        Remove(BaseIds(st), true);
        SetSlot(slot, Cleared(st));
      }
    }

    method DisableSteps()
      modifies this
      ensures State() == DisableUnlessBoth(old(State()))
    {
      if slotA.mesh.None? || slotB.mesh.None? {
        buttonsEnabled := false;
      }
    }

    method RedrawIfOverlaySteps()
      modifies this
      ensures State() == RedrawIfOverlay(old(State()))
    {
      if slotA.matchingMesh.Some? || slotB.matchingMesh.Some? {
        RedrawSteps();
      }
    }

    // The handlers.

    /** The load handler, given what `process_3d_file` answered for the dropped file. */
    method LoadResult(slot: Slot, result: Result<MeshData, string>)
      requires Valid()
      modifies this
      ensures State() == Load(old(State()), slot, result)
      ensures Valid()
    {
      ghost var p := State();
      LoadSteps(slot, result);
      LoadCoherent(p, slot, result);
    }

    /** `alignMeshes`, given what `align_meshes` answered. */
    method AlignMeshes(result: Result<Aligned, string>)
      requires Valid()
      modifies this
      ensures State() == Align(old(State()), result)
      ensures Valid()
    {
      ghost var p := State();
      AlignSteps(result);
      AlignCoherent(p, result);
    }

    /** `calculateDistance`: the statistics are shown exactly when both slots hold data and the backend answered. */
    method CalculateDistance(failed: bool) returns (shown: bool)
      ensures shown <==> BothData(State()) && !failed
    {
      if slotA.meshData.None? || slotB.meshData.None? {
        return false;
      }
      shown := !failed;
    }

    /** `updateMatchingVisualization`. */
    method UpdateMatchingVisualization()
      requires Valid()
      modifies this
      ensures State() == UpdateVisualization(old(State()))
      ensures Valid()
    {
      ghost var p := State();
      RedrawSteps();
      UpdateCoherent(p);
    }

    /** `findMatching`, given what `find_matching_vertices` answered. */
    method FindMatching(result: Result<Matching, string>)
      requires Valid()
      modifies this
      ensures State() == Matched(old(State()), result)
      ensures Valid()
    {
      ghost var p := State();
      MatchSteps(result);
      MatchedCoherent(p, result);
    }

    /** `toggleMatchingThreshold` after the overlay checkbox becomes `checked`. */
    method ToggleMatchingThreshold(checked: bool)
      requires Valid()
      modifies this
      ensures State() == Toggle(old(State()), checked)
      ensures Valid()
    {
      ghost var p := State();
      ToggleSteps(checked);
      ToggleCoherent(p, checked);
    }

    /** `clearFile`. */
    method ClearFile(slot: Slot)
      requires Valid()
      modifies this
      ensures State() == Clear(old(State()), slot)
      ensures Valid()
    {
      ghost var p := State();
      ClearSteps(slot);
      ClearCoherent(p, slot);
    }

    /** A file checkbox becomes `checked`, and `updateMeshVisibility` runs. */
    method SetShowFile(slot: Slot, checked: bool)
      requires Valid()
      modifies this
      ensures State() == ShowFileChanged(old(State()), slot, checked)
      ensures Valid()
    {
      ghost var p := State();
      ShowFileSteps(slot, checked);
      ShowFileCoherent(p, slot, checked);
    }

    method ShowFileSteps(slot: Slot, checked: bool)
      modifies this
      ensures State() == ShowFileChanged(old(State()), slot, checked)
    {
      if slot == A {
        showFileA := checked;
      } else {
        showFileB := checked;
      }
      UpdateMeshVisibility();
    }
  }
}
