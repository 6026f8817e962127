# ComparisonOf3dData: a Dafny model of the comparison core

ComparisonOf3dData compares two 3D models side by side in a browser. A Python backend
(`main.py`) reads the files. It reads binary STL with a vertex-deduplicating reader and
OBJ with a line-by-line reader. It aligns model B onto model A, and it flags the vertices
of each model that lie within a distance threshold of the other. The browser client
(`web/app.js`) keeps two slots, A and B. Each slot holds:

- a base mesh in the Three.js scene;
- the mesh data that base mesh was built from;
- a clone of its material;
- the per-vertex match flags;
- an overlay mesh coloured by those flags. The overlay may carry a child that draws only
  the triangles whose three vertices all match.

The project models these parts:

| module | file | what it models |
|---|---|---|
| `Wrappers` | `wrappers.dfy` | `Option` and `Result` |
| `Text` | `text.dfy` | the Python and JavaScript string primitives the readers rely on |
| `FileDispatch` | `file_dispatch.dfy` | `process_3d_file`'s choice of reader by `pathlib` suffix |
| `DropZone` | `drop_zone.dfy` | the client's extension check on a dropped file, and how it agrees with the dispatch |
| `StlReader` | `stl_reader.dfy` | `read_stl_manual`, as a method with loops, proved against a de-duplication specification |
| `ObjReader` | `obj_reader.dfy` | the manual path of `read_obj_to_json`: the line loop, face tokens, normal padding and copying, fan triangulation |
| `VertexMatching` | `vertex_matching.dfy` | the flag and count bookkeeping of `find_matching_vertices`, given the nearest-neighbour distances |
| `Alignment` | `alignment.dfy` | the data path of `align_meshes`, given the registration's output |
| `OverlayGeometry` | `overlay_geometry.dfy` | the colour-buffer loop, the `Uint32Array` index conversion and the matching-only triangle filter |
| `Meshes` | `meshes.dfy` | the mesh data and the two slots |
| `Viewer` | `viewer.dfy` | the client's page state as transitions on a `Page` value, and the `ComparisonViewer` class. The class holds the module globals and updates them in place, one method per handler. |
| `ViewerProperties` | `viewer_properties.dfy` | what each handler does to the slots, the scene and the disposals, end to end from the backend's answer |

The scene is modelled as a set of object ids. Each `dispose()` call adds the object to a
set of disposed geometries or a set of disposed materials. The page invariant `Coherent`
has three parts:

- the scene holds exactly the objects the globals refer to;
- nothing disposed is still in the scene;
- the comparison buttons are enabled only while both slots hold a mesh.

Every handler keeps `Coherent`.

### Behaviour as the code has it

The model follows `web/app.js` and `main.py` as written. In several places the code does
less than a clean design of this tool would:

- **`clearFile` leaves the overlays.** `clearFile` drops the slot's flags before it calls
  `updateMatchingVisualization`. That function returns at once unless both slots have
  flags. So both slots' overlays and their matching-only children stay in the scene
  (`ViewerProperties.ClearEffect`).
- **Alignment does not dispose B's material.** `alignMeshes` disposes the old B mesh's
  geometry but not its material (`ViewerProperties.AlignEffect`).
- **Stale flags are kept.** Loading a file or aligning keeps the slot's old match flags
  and overlay. The next redraw then colours the new mesh by the old flags.
- **Unchecking the overlay can leave it in place.** When one slot has no flags,
  unchecking the overlay box only records the checkbox state; any overlay stays
  (`ViewerProperties.ToggleEffect`).
- **A file named `.stl` is accepted, then rejected.** The client accepts a file called
  exactly `.stl` (or another bare extension), but `pathlib` gives that name no suffix, so
  the backend rejects it as unsupported (`DropZone.BareExtension`).
- **No stale-response check.** The client does not check whether a backend answer is
  stale. Each handler is modelled as one atomic step that receives the backend's answer.

## Model

| member | source | states |
|---|---|---|
| FileDispatch.Suffix | main.py:42-43 | The suffix is empty, or it is a tail of the name that starts with its only dot, has at least one character after that dot, and is shorter than the name (a leading dot is not a suffix). |
| FileDispatch.SuffixAt | main.py:42-43 | Conversely, a dot that is neither the first nor the last character, with no dot after it, starts the suffix. |
| FileDispatch.DispatchSuffix | main.py:42-98 | The lower-cased suffix picks the reader: `.stl` exactly routes to the STL reader, `.obj` exactly to the OBJ reader, `.step` or `.stp` exactly to the STEP conversion, and `.iges` or `.igs` exactly to the IGES conversion. Any other suffix is rejected, with the "Unsupported file format: " prefix followed by that suffix as the message. |
| DropZone.SavedName | main.py:17-36 | A file saved as `temp/<name>` has `<name>` as its file name again, for any name without a slash other than empty and `.`. |
| DropZone.SuffixAccepted | web/app.js:194-197 | A name whose lower-cased suffix is a supported extension passes the client's `endsWith` check. |
| DropZone.DispatchedAccepted | web/app.js:187-205 | Every file the backend dispatches to a reader has a name the client's drop check accepts. |
| DropZone.AcceptedSuffix | web/app.js:194-197 | A name the client accepts, and that is not only an extension, has a supported extension as its lower-cased suffix. |
| DropZone.AcceptedDispatched | web/app.js:187-205 | Every dropped name the client accepts, and that is not only an extension, is dispatched to a reader once saved under `temp/`. |
| DropZone.BareExtension | web/app.js:194-197 | The exception: the client accepts a file named `.stl`, and the backend answers "Unsupported file format: " with an empty suffix. |
| VertexMatching.Flags | main.py:384-391 | One flag per distance; a flag is true exactly when its distance is at most the threshold. |
| VertexMatching.CountTrueIsSize | main.py:394-395 | `int(np.sum(flags))` equals the number of positions whose flag is true. |
| VertexMatching.FindMatchingSpec | main.py:368-413 | The result is an error exactly when a vertex list does not reshape into triples or is empty. On success: one flag per vertex of each mesh; each flag is true exactly when that vertex's distance is within the threshold; the counts equal the number of true flags, which is at most the vertex totals; the totals are the vertex counts. |
| Alignment.AlignMeshes | main.py:192-239 | Alignment succeeds exactly when both meshes reshape into triples and the registration returns. On success, B's index list passes through unchanged, with the registration's vertices, normals and transformation. Every failure carries the "Alignment error: " prefix. |
| OverlayGeometry.ColorOf | web/app.js:485-497 | A vertex shows the match colour exactly when it is matched. An unmatched vertex shows red in slot A and blue in slot B. |
| OverlayGeometry.ColorBufferAt | web/app.js:485-497 | Entries `3i..3i+3` of the colour buffer are vertex `i`'s colour. |
| OverlayGeometry.ColorBufferMatch | web/app.js:533-545 | A vertex's three entries are the match colour exactly when its flag is set. Otherwise they are the slot's own colour. A missing flag reads as false. |
| OverlayGeometry.FillColors | web/app.js:485-497 | The colour loop fills an array of three entries per vertex that equals the specified colour buffer. |
| OverlayGeometry.IndexBuffer | web/app.js:85 | `new Uint32Array(indices)` has one entry per index. Each entry is below 2^32 and congruent to its index modulo 2^32. |
| OverlayGeometry.IndexBufferSame | web/app.js:85 | An index list whose entries all lie in `[0, 2^32)` passes through the conversion unchanged. |
| OverlayGeometry.MatchingOnlyIndices | web/app.js:573-581 | The filter loop, stepping `i += 3` over the index array, produces exactly the matching-only list of all its passes. |
| OverlayGeometry.MatchingOnlyPrefix | web/app.js:573-581 | Filtering more triangles only appends to the output. |
| OverlayGeometry.MatchingOnlySound | web/app.js:573-581 | Every output triangle is an input triangle, among those filtered, with all three vertices flagged. So every vertex the output names is flagged. |
| OverlayGeometry.MatchingOnlyComplete | web/app.js:573-581 | Every input triangle with all three vertices flagged appears in the output, in input order, right after the output of the triangles before it. |
| OverlayGeometry.MatchingOnlySkip | web/app.js:573-581 | A triangle with an unflagged or missing corner adds nothing. |
| StlReader.ReadStlManual | main.py:147-190 | The reader returns exactly `StlSpec(data)`. That is an unpack error when an announced record lacks its normal or a vertex. Otherwise it is the de-duplicated vertex and normal lists and one index per corner. |
| StlReader.ReadRecords | main.py:156-181 | The header skip, count read and record loop succeed exactly when every announced record is complete, and then yield the specification's three lists. |
| StlReader.ReadCount | main.py:157-160 | The count is the little-endian value of whatever of bytes 80..84 the file has. The read position is then the first record's start, or the end of the data. |
| StlReader.ReadTriangles | main.py:162-181 | The `for i` loop completes exactly when the file is complete. Its lists and `vertex_map` are then the de-duplication of all records' corners. |
| StlReader.ReadRecord | main.py:163-181 | One record is read exactly when its 48 bytes are there. It moves the state by that record's three vertices and advances the position by 50 bytes, or to the end of the data. |
| StlReader.AddVertex | main.py:170-178 | A vertex already in `vertex_map` only appends its index. A new vertex appends its coordinates and the record's normal and takes the next index. |
| StlReader.ExpectedStep | main.py:162-181 | Reading record `i` on top of the de-duplication of the first `i` records gives the de-duplication of the first `i + 1`. |
| StlReader.TracksExpected | main.py:170-178 | The reader's lists and dictionary are in step with the de-duplication of the keys read so far exactly when they equal it. |
| StlReader.StlShape | main.py:183-187 | On success there are three indices per record, the vertex and normal lists have the same length, a multiple of three, and every index names a stored vertex. |
| StlReader.StlDedup | main.py:171-178 | Each index leads back to its corner's position. Two corners share an index exactly when their positions are equal, bit for bit. |
| StlReader.StlFirstAppearance | main.py:173-176 | A position seen for the first time takes the number of distinct positions before it as its index. Its stored normal is that of the record that introduced it. |
| StlReader.OneTriangle | main.py:160-187 | One record with three distinct vertices gives nine coordinates, nine normal components and the indices 0, 1, 2. |
| ObjReader.ReadObjManual | main.py:253-313 | The line loop and the choice of normals return exactly `ObjSpec(lines)`. That is no mesh when a line raises. Otherwise it is the vertices, the faces, and the per-vertex normals, or none when no face named a normal. |
| ObjReader.ReadLineStep | main.py:254-296 | One pass of the line loop is the one-line transition `ReadLine`. |
| ObjReader.ReadFaceTokens | main.py:269-284 | The token loop of an `f` line computes `ReadFace` over all the tokens. |
| ObjReader.ReadFaceStep | main.py:269-284 | One pass of the token loop extends `ReadFace` by one token. |
| ObjReader.ReadTokenStep | main.py:271-284 | One token's body is `ReadToken`. |
| ObjReader.ReadToken | main.py:271-273 | A token that reads gives, as its vertex index, one less than the integer before its first `/`. |
| ObjReader.ReadFace | main.py:269-284 | A face that reads has one index per token. Each index is one less than the integer before the first `/` of its token. |
| ObjReader.TokenPlain | main.py:271-277 | A token whose first field is an integer and that names no normal (no non-empty third field) always reads: its index is that integer less one, and the normal array is unchanged. |
| ObjReader.TokenWithNormal | main.py:271-284 | A token `v/t/m` with `v >= 1` and `m` naming one of the normals read so far always reads as index `v - 1`. The normal array comes back `max(len, 3v)` long, with normal `m` at vertex `v - 1`'s triple; every other old entry is kept and every other new entry is zero. |
| ObjReader.FacePlain | main.py:269-277 | A face whose tokens are all plain always reads, and leaves the normal array unchanged. |
| ObjReader.VertexLine | main.py:254-257 | A line `v x y z` appends the three coordinates to the vertex list and changes nothing else. |
| ObjReader.FaceLine | main.py:264-266 | A line starting `f ` is read by the face branch, over its words after the first. |
| ObjReader.PlainFace | main.py:264-296 | A face line of plain tokens always reads: it appends the fan of its indices to the face list and changes nothing else. |
| ObjReader.UnitSquare | main.py:253-313 | A file of four `v` lines and the face `f 1 2 3 4` reads as those twelve coordinates, no normals, and the indices `0 1 2 0 2 3`. |
| ObjReader.BadFaceToken | main.py:271-272 | A face with a token that has no integer before its first `/` raises. |
| ObjReader.FailureSticks | main.py:269-284 | Once a token raises, the whole face raises. |
| ObjReader.LinesFailureSticks | main.py:253-296 | Once a line raises, the whole read raises. |
| ObjReader.ShortVertexLine | main.py:254-257 | A `v` line with fewer than three coordinates makes the manual path raise. |
| ObjReader.Padded | main.py:279-280 | Padding `vertex_normals` until its length exceeds `need` gives length `max(len, need + 1)`. The old entries are kept and the new ones are zero. |
| ObjReader.PadNormals | main.py:279-280 | The padding loop computes `Padded`. |
| ObjReader.CopyNormal | main.py:282-284 | The three assignments, with Python's negative indexing, succeed exactly when positions `p` to `p + 2` are in range, counting from either end. |
| ObjReader.PadAndCopy | main.py:276-284 | For a vertex index of at least 0, padding then copying always succeeds. The array then covers the vertex's triple, which holds the normal. Every other old entry is kept, and every other new entry is zero. |
| ObjReader.Triangulate | main.py:286-296 | The triangle, quad and polygon cases all give the fan around the first vertex. |
| ObjReader.FanTriangle | main.py:286-296 | Triangle `t` of the fan is `(fi[0], fi[t + 1], fi[t + 2])`. |
| ObjReader.Fan | main.py:286-296 | A face of `k` vertices gives `max(k - 2, 0)` triangles, three indices each. |
| ObjReader.LinesShape | main.py:254-296 | After any number of lines, the vertex list and the face list are both whole triples. |
| ObjReader.LineShape | main.py:254-296 | One line keeps both lists whole triples. |
| ObjReader.ObjShape | main.py:309-313 | The returned vertex and index lists are multiples of three long. |
| Viewer.LoadCoherent | web/app.js:237-291 | The load handler keeps the page invariant, whatever the backend answered. |
| Viewer.AlignCoherent | web/app.js:309-342 | Alignment keeps the page invariant. |
| Viewer.UpdateCoherent | web/app.js:441-650 | The visualization update keeps the page invariant. |
| Viewer.UpdateSound | web/app.js:441-650 | The visualization update keeps the scene sound, leaves every base mesh in place and leaves the buttons alone. |
| Viewer.MatchedCoherent | web/app.js:391-438 | Storing the backend's flags keeps the page invariant. |
| Viewer.ToggleCoherent | web/app.js:653-666 | The overlay checkbox keeps the page invariant. |
| Viewer.ClearCoherent | web/app.js:675-725 | Clearing a slot keeps the page invariant. |
| Viewer.ShowFileCoherent | web/app.js:109-112 | A visibility checkbox keeps the page invariant. |
| Viewer.ComparisonViewer.LoadResult | web/app.js:237-291 | The handler takes the page to `Load` of the old page and keeps `Valid`. |
| Viewer.ComparisonViewer.AlignMeshes | web/app.js:309-342 | The handler takes the page to `Align` of the old page and keeps `Valid`. |
| Viewer.ComparisonViewer.CalculateDistance | web/app.js:345-388 | The statistics are shown exactly when both slots hold data and the backend answered. The page is not changed. |
| Viewer.ComparisonViewer.UpdateMatchingVisualization | web/app.js:441-650 | The handler takes the page to `UpdateVisualization` of the old page and keeps `Valid`. |
| Viewer.ComparisonViewer.FindMatching | web/app.js:391-438 | The handler takes the page to `Matched` of the old page and keeps `Valid`. |
| Viewer.ComparisonViewer.ToggleMatchingThreshold | web/app.js:653-666 | The handler takes the page to `Toggle` of the old page and keeps `Valid`. |
| Viewer.ComparisonViewer.ClearFile | web/app.js:675-725 | The handler takes the page to `Clear` of the old page and keeps `Valid`. |
| Viewer.ComparisonViewer.SetShowFile | web/app.js:109-112 | The checkbox change then `updateMeshVisibility` takes the page to `ShowFileChanged` and keeps `Valid`. |
| ViewerProperties.RemoveOverlayEffect | web/app.js:446-468 | Removing a slot's overlay clears only that slot's overlay. The overlay and its child leave the scene with geometry and material disposed. Nothing else changes. |
| ViewerProperties.AddOverlayEffect | web/app.js:472-517 | A slot with a mesh and flags gets an overlay coloured by its flags, under a fresh id, and its base mesh is hidden. The other slot and the controls are untouched. |
| ViewerProperties.AddMatchingOnlyEffect | web/app.js:568-605 | The overlay gets a matching-only child, holding the kept triangles, exactly when at least one triangle is kept. The other slot and the controls are untouched. |
| ViewerProperties.UpdateEffect | web/app.js:441-650 | Without flags in both slots nothing changes. Otherwise each slot is redrawn as `Refreshed` says, and the old overlays are gone. `Refreshed` has two cases. With the overlay on, the slot gets an overlay coloured by its flags, a child exactly when some triangle is kept, and a hidden base mesh. With the overlay off, the slot gets no overlay and base visibility from its checkbox. The controls are untouched. |
| ViewerProperties.LoadEffect | web/app.js:237-291 | An error changes nothing. Otherwise the slot gets a new base mesh, visible per its checkbox, and the slot's data and material clone are replaced; its flags and overlay stay. The other slot's visibility is re-applied. The buttons end up enabled exactly when the other slot holds a mesh. |
| ViewerProperties.LoadScene | web/app.js:253-268 | After a load, the old base mesh leaves the scene with geometry and material disposed, and the new one enters it. |
| ViewerProperties.AlignEffect | web/app.js:309-342 | Nothing changes unless both slots hold data and the backend answered. Then B's old mesh leaves the scene with its geometry disposed and its material not disposed. A new mesh from the aligned data takes its place. B's flags, overlay and material clone stay. |
| ViewerProperties.AlignKeepsTriangles | main.py:234 | With the backend's own alignment of the two slots' data, B's new base mesh has its old index array and the registration's vertices. |
| ViewerProperties.MatchedEffect | web/app.js:391-438 | Nothing changes unless both slots hold data and the backend answered. Then both slots get their flags, and only that changes while the overlay is off. With it on, both slots are redrawn from the new flags and the old overlays are gone. |
| ViewerProperties.OverlayShowsDistances | web/app.js:472-517 | End to end, after `findMatching` with the overlay on: each vertex of a slot's overlay has the match colour exactly when its distance to the other mesh is within the threshold. Otherwise it has the slot's own colour. |
| ViewerProperties.ChildShowsMatches | web/app.js:568-605 | End to end, after `findMatching` with the overlay on: every vertex a slot's matching-only child draws is within the threshold of the other mesh. |
| ViewerProperties.ToggleEffect | web/app.js:653-666 | The checkbox takes the new state. With flags in both slots, both slots are redrawn for it and the old overlays are gone. Otherwise nothing else changes. |
| ViewerProperties.ClearEffect | web/app.js:675-725 | Clearing drops the slot's mesh, data, material clone and flags. Its base mesh leaves the scene with geometry and material disposed. The other slot is untouched, the overlays stay in the scene, and the buttons are disabled. |
| ViewerProperties.DropBaseEffect | web/app.js:677-693 | The slot part of `clearFile`: the slot is cleared, and only its base mesh leaves the scene, disposed. |
| ViewerProperties.OneOverlayPerSlot | web/app.js:446-468 | In a sound scene every overlay object is the one its slot's global refers to, so a slot never has two overlays in the scene. |

## Left out

- Floating point: STL floats are kept as their 32-bit patterns, so vertex keys are equal exactly when their bytes are. Python's float `==` would also equate `0.0` and `-0.0`, and would never equate a NaN with itself. OBJ coordinate tokens are kept as text; whether `float()` accepts them is not modelled.
- `Text.ParseInt` accepts an optional sign and ASCII digits only. Python's `int()` also accepts surrounding whitespace, underscores and non-ASCII digits.
- FileDispatch.Suffix: follows `PurePath.suffix` as Python 3.13 and earlier compute it. Python 3.14 also gives a name ending in `.` the suffix `.`. Either way that name is rejected; only the suffix named in the message differs.
- Viewer.PositionCount: floors `|vertices| / 3`, while Three.js's `position.count` does not floor. The two agree on the vertex lists both readers return, which are whole triples (`StlReader.StlShape`, `ObjReader.ObjShape`).
- `Text.Lower` lower-cases ASCII letters only; `str.lower()` and `toLowerCase()` also fold other scripts. Paths are POSIX paths.
- `read_stl_to_json`'s Open3D path (main.py:103-145) is not modelled. The model covers the manual reader that it falls back to.
- The CadQuery STEP/IGES conversion (main.py:66-95) is an external library call. The dispatch routes to it, but the conversion is not modelled.
- The Open3D fallback of `read_obj_to_json` (main.py:315-334) and its computation of vertex normals when no face names one (main.py:298-307) are library calls. `ObjSpec` returns `None` for the first and no normals for the second.
- The KDTree queries of `find_matching_vertices` are inputs: the nearest-neighbour distances are parameters. `calculate_mesh_distance` (main.py:336-366) computes only statistics, which the model reduces to whether the client shows them.
- The ICP registration of `align_meshes` is an input. `None` stands for Open3D raising.
- VertexMatching.FindMatchingSpec: the percentages are not modelled, beyond the empty mesh failing their division.
- Error messages are modelled by their fixed prefixes; the exception text after the prefix is not.
- File I/O is not modelled: reading the file, saving the upload (main.py:17-36), base64 decoding and temp-file cleanup. The readers take the file's bytes or lines as parameters.
- UI cosmetics are not modelled: status and message HTML, opacity, wireframe, camera, material colours, the stats panel contents and the threshold display. The handlers' `async` timing is not modelled either; each handler is one atomic step given the backend's answer.
- OverlayGeometry.FillColors: colours are reals; the float32 rounding of `Float32Array` is not modelled.
- Viewer: Three.js geometry and material objects are modelled by ids with disposed sets. The GPU memory they hold is not modelled.
