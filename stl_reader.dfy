/**
 * The backend's manual binary STL reader (`read_stl_manual`): an 80-byte header, a
 * little-endian triangle count, then one 50-byte record per triangle (a normal, three
 * vertices, two attribute bytes). Vertices are de-duplicated through a dictionary keyed
 * by their position, giving flat vertex, normal and index lists.
 *
 * A float32 field is kept as its 32-bit pattern, so two positions are the same key
 * exactly when their twelve bytes agree.
 */
module StlReader {
  import opened Wrappers

  newtype byte = x: int | 0 <= x < 256

  /** Three float32 fields, each as its little-endian 32-bit pattern. */
  datatype Vec3 = Vec3(x: nat, y: nat, z: nat)

  /** The `{"vertices", "normals", "indices"}` dictionary the reader returns. */
  datatype StlMesh = StlMesh(vertices: seq<nat>, normals: seq<nat>, indices: seq<nat>)

  const HeaderSize: nat := 80
  const CountSize: nat := 4
  const RecordSize: nat := 50
  const VectorSize: nat := 12
  /** The vertices of one triangle record. */
  const VerticesPerRecord: nat := 3
  /** What `struct.unpack('<fff', ...)` raises on a short read, wrapped by the reader's handler. */
  const UnpackError: string := "STL reading error: unpack requires a buffer of 12 bytes"

  function Min(a: nat, b: nat): nat {
    if a <= b then a else b
  }

  /** `int.from_bytes(bs, 'little')`; the empty string reads as 0. */
  function LittleEndian(bs: seq<byte>): nat {
    if bs == [] then 0 else bs[0] as nat + 256 * LittleEndian(bs[1..])
  }

  /** The count field: whatever of bytes 80..84 the file has. */
  function TriangleCount(data: seq<byte>): nat {
    LittleEndian(data[Min(HeaderSize, |data|)..Min(HeaderSize + CountSize, |data|)])
  }

  function RecordStart(i: nat): nat {
    HeaderSize + CountSize + 50 * i
  }

  /** Every announced record has its normal and three vertices (its attribute bytes may be cut). */
  predicate Complete(data: seq<byte>) {
    var n := TriangleCount(data);
    n == 0 || RecordStart(n - 1) + 48 <= |data|
  }

  function VectorAt(data: seq<byte>, p: nat): Vec3
    requires p + VectorSize <= |data|
  {
    Vec3(Word(data, p), Word(data, p + 4), Word(data, p + 8))
  }

  /** A little-endian 32-bit field (one `<f` of `struct.unpack`, kept as its bit pattern). */
  function Word(data: seq<byte>, p: nat): nat
    requires p + 4 <= |data|
  {
    data[p] as nat + 0x100 * data[p + 1] as nat + 0x1_0000 * data[p + 2] as nat + 0x100_0000 * data[p + 3] as nat
  }

  function NormalOf(data: seq<byte>, i: nat): Vec3
    requires RecordStart(i) + VectorSize <= |data|
  {
    VectorAt(data, RecordStart(i))
  }

  /** Vertex `j` of record `i`. */
  function CornerOf(data: seq<byte>, i: nat, j: nat): Vec3
    requires RecordStart(i) + 12 * (j + 2) <= |data|
  {
    VectorAt(data, RecordStart(i) + 12 * (j + 1))
  }

  /** The first `j` vertices of record `i`. */
  function RecordCorners(data: seq<byte>, i: nat, j: nat): (cs: seq<Vec3>)
    requires RecordStart(i) + 12 * (j + 1) <= |data|
    ensures |cs| == j
  {
    if j == 0 then [] else RecordCorners(data, i, j - 1) + [CornerOf(data, i, j - 1)]
  }

  /** The vertex keys of the first `n` records, in file order. */
  function Corners(data: seq<byte>, n: nat): (keys: seq<Vec3>)
    requires n == 0 || RecordStart(n - 1) + 48 <= |data|
    ensures |keys| == 3 * n
  {
    if n == 0 then [] else Corners(data, n - 1) + RecordCorners(data, n - 1, VerticesPerRecord)
  }

  /** For each key of `Corners(data, n)`, the normal of the record it belongs to. */
  function CornerNormals(data: seq<byte>, n: nat): (ns: seq<Vec3>)
    requires n == 0 || RecordStart(n - 1) + 48 <= |data|
    ensures |ns| == 3 * n
  {
    if n == 0 then [] else CornerNormals(data, n - 1) + Repeat(NormalOf(data, n - 1), VerticesPerRecord)
  }

  function Repeat<T>(x: T, n: nat): (r: seq<T>)
    ensures |r| == n && forall k :: 0 <= k < n ==> r[k] == x
  {
    if n == 0 then [] else Repeat(x, n - 1) + [x]
  }

  function Init<T>(s: seq<T>): seq<T>
    requires s != []
  {
    s[..|s| - 1]
  }

  function Last<T>(s: seq<T>): T
    requires s != []
  {
    s[|s| - 1]
  }

  predicate Distinct<T(==)>(s: seq<T>) {
    forall i, j :: 0 <= i < j < |s| ==> s[i] != s[j]
  }

  /** The distinct keys, in order of first appearance. */
  function Uniq(keys: seq<Vec3>): (u: seq<Vec3>)
    ensures forall x :: x in u <==> x in keys
    ensures |u| <= |keys|
  {
    if keys == [] then []
    else
      var u := Uniq(Init(keys));
      assert forall x :: x in keys <==> x in Init(keys) || x == Last(keys) by {
        assert keys == Init(keys) + [Last(keys)];
      }
      if Last(keys) in u then u else u + [Last(keys)]
  }

  /** No key appears twice among the distinct keys. */
  lemma {:induction false} UniqDistinct(keys: seq<Vec3>)
    ensures Distinct(Uniq(keys))
  {
    if keys != [] {
      UniqDistinct(Init(keys));
    }
  }

  /** The position of `x` in `u`. */
  function IndexIn(u: seq<Vec3>, x: Vec3): (k: nat)
    requires x in u
    ensures k < |u| && u[k] == x && x !in u[..k]
  {
    if u[0] == x then 0
    else
      assert x in u[1..] by { assert u == [u[0]] + u[1..]; }
      var k := IndexIn(u[1..], x);
      assert u[..k + 1] == [u[0]] + u[1..][..k];
      k + 1
  }

  /** The first position of `x` in `keys`. */
  function FirstAt(keys: seq<Vec3>, x: Vec3): (k: nat)
    requires x in keys
    ensures k < |keys| && keys[k] == x && x !in keys[..k]
  {
    IndexIn(keys, x)
  }

  /** For each key, the position its first occurrence takes among the distinct keys. */
  function Indices(keys: seq<Vec3>): (idx: seq<nat>)
    ensures |idx| == |keys|
  {
    if keys == [] then [] else Indices(Init(keys)) + [IndexIn(Uniq(keys), Last(keys))]
  }

  /** For each distinct key, the normal that came with its first occurrence. */
  function UniqNormals(keys: seq<Vec3>, ns: seq<Vec3>): (r: seq<Vec3>)
    requires |ns| == |keys|
    ensures |r| == |Uniq(keys)|
  {
    if keys == [] then []
    else
      var rest := UniqNormals(Init(keys), Init(ns));
      if Last(keys) in Uniq(Init(keys)) then rest else rest + [Last(ns)]
  }

  function Flatten(vs: seq<Vec3>): (flat: seq<nat>)
    ensures |flat| == 3 * |vs|
  {
    if vs == [] then [] else Flatten(Init(vs)) + [Last(vs).x, Last(vs).y, Last(vs).z]
  }

  /** Entry `p` of a flat x, y, z list. */
  function TripleAt(flat: seq<nat>, p: nat): Vec3
    requires 3 * p + 2 < |flat|
  {
    Vec3(flat[3 * p], flat[3 * p + 1], flat[3 * p + 2])
  }

  /** What `read_stl_manual` returns for the file contents `data`. */
  function StlSpec(data: seq<byte>): Result<StlMesh, string> {
    if !Complete(data) then Failure(UnpackError)
    else
      var n := TriangleCount(data);
      var keys := Corners(data, n);
      Success(StlMesh(Flatten(Uniq(keys)), Flatten(UniqNormals(keys, CornerNormals(data, n))), Indices(keys)))
  }

  /** The reader's lists and dictionary hold exactly the de-duplication of `keys` (read with normals `ns`). */
  ghost predicate Tracks(keys: seq<Vec3>, ns: seq<Vec3>, s: Reading)
  {
    && |ns| == |keys|
    && s.vertices == Flatten(Uniq(keys))
    && s.normals == Flatten(UniqNormals(keys, ns))
    && s.indices == Indices(keys)
    && (forall v :: v in s.vertexMap <==> v in keys)
    && (forall v :: v in s.vertexMap ==> s.vertexMap[v] < |Uniq(keys)| && Uniq(keys)[s.vertexMap[v]] == v)
  }

  /** The reader's working state: the flat lists and the `vertex_map` dictionary. */
  datatype Reading = Reading(vertices: seq<nat>, normals: seq<nat>, indices: seq<nat>, vertexMap: map<Vec3, nat>)

  /** One pass of the innermost loop body on vertex `v` of a record with normal `nv`. */
  ghost function ReadVertex(s: Reading, v: Vec3, nv: Vec3): Reading {
    if v in s.vertexMap then Reading(s.vertices, s.normals, s.indices + [s.vertexMap[v]], s.vertexMap)
    else
      var p := |s.vertices| / 3;
      Reading(s.vertices + [v.x, v.y, v.z], s.normals + [nv.x, nv.y, nv.z], s.indices + [p], s.vertexMap[v := p])
  }

  /** The state after the first `j` vertices of record `i`, starting from `s`. */
  ghost function ReadPartial(s: Reading, data: seq<byte>, i: nat, j: nat): Reading
    requires RecordStart(i) + 12 * (j + 1) <= |data|
  {
    if j == 0 then s else ReadVertex(ReadPartial(s, data, i, j - 1), CornerOf(data, i, j - 1), NormalOf(data, i))
  }

  /** The reader itself: an unpack error on a short record, the three lists otherwise. */
  method ReadStlManual(data: seq<byte>) returns (r: Result<StlMesh, string>)
    ensures r == StlSpec(data)
  {
    var ok, vertices, normals, indices := ReadRecords(data);
    if !ok {
      return Failure(UnpackError);
    }
    return Success(StlMesh(vertices, normals, indices));
  }

  /** The header skip, the count read and the record loop; `ok` is false once a read comes up short. */
  method ReadRecords(data: seq<byte>) returns (ok: bool, vertices: seq<nat>, normals: seq<nat>, indices: seq<nat>)
    ensures ok <==> Complete(data)
    ensures ok ==> StlSpec(data) == Success(StlMesh(vertices, normals, indices))
  {
    var numTriangles, pos := ReadCount(data);
    var vertexMap;
    ok, vertices, normals, indices, vertexMap := ReadTriangles(data, numTriangles, pos);
    if ok {
      SpecExpected(data, Reading(vertices, normals, indices, vertexMap));
    }
  }

  /** The `for i in range(num_triangles)` loop, from the first record on. */
  method ReadTriangles(data: seq<byte>, numTriangles: nat, start: nat)
    returns (ok: bool, vertices: seq<nat>, normals: seq<nat>, indices: seq<nat>, vertexMap: map<Vec3, nat>)
    requires numTriangles == TriangleCount(data) && start == Min(RecordStart(0), |data|)
    ensures ok <==> Complete(data)
    ensures ok ==> ReadsAsExpected(data, numTriangles, Reading(vertices, normals, indices, vertexMap))
  {
    vertices, normals, indices, vertexMap := [], [], [], map[];
    var pos := start;
    ExpectedNone();
    for i := 0 to numTriangles
      invariant pos == Min(RecordStart(i), |data|)
      invariant i == 0 || RecordStart(i - 1) + 48 <= |data|
      invariant ReadsAsExpected(data, i, Reading(vertices, normals, indices, vertexMap))
    {
      var read;
      read, pos, vertices, normals, indices, vertexMap := ReadNext(data, i, pos, vertices, normals, indices, vertexMap);
      if !read {
        return false, vertices, normals, indices, vertexMap;
      }
    }
    ok := true;
  }

  /** One pass of the loop body: record `i` read on top of the first `i` records keeps the state their de-duplication. */
  method ReadNext(data: seq<byte>, i: nat, pos: nat, vertices: seq<nat>, normals: seq<nat>,
                  indices: seq<nat>, vertexMap: map<Vec3, nat>)
    returns (ok: bool, pos': nat, vertices': seq<nat>, normals': seq<nat>, indices': seq<nat>, vertexMap': map<Vec3, nat>)
    requires pos == Min(RecordStart(i), |data|)
    requires i == 0 || RecordStart(i - 1) + 48 <= |data|
    requires ReadsAsExpected(data, i, Reading(vertices, normals, indices, vertexMap))
    ensures ok <==> RecordStart(i) + 48 <= |data|
    ensures ok ==> pos' == Min(RecordStart(i + 1), |data|)
    ensures ok ==> ReadsAsExpected(data, i + 1, Reading(vertices', normals', indices', vertexMap'))
  {
    ok, pos', vertices', normals', indices', vertexMap' := ReadRecord(data, i, pos, vertices, normals, indices, vertexMap);
    if ok {
      ExpectedStep(data, i, Reading(vertices, normals, indices, vertexMap));
    }
  }

  /** On a complete file the specification's lists are those of the de-duplication of all corners. */
  lemma SpecExpected(data: seq<byte>, s: Reading)
    requires Complete(data) && ReadsAsExpected(data, TriangleCount(data), s)
    ensures StlSpec(data) == Success(StlMesh(s.vertices, s.normals, s.indices))
  {
  }

  /** The header skip and the count read: whatever of the four count bytes the file has, read little-endian. */
  method ReadCount(data: seq<byte>) returns (count: nat, pos: nat)
    ensures count == TriangleCount(data) && pos == Min(RecordStart(0), |data|)
  {
    pos := Min(HeaderSize, |data|);
    var countEnd := Min(pos + CountSize, |data|);
    count := LittleEndian(data[pos..countEnd]);
    pos := countEnd;
  }

  /** One pass of the `for i` loop: the normal, the `for j in range(3)` vertex loop, then the two attribute bytes. */
  method ReadRecord(data: seq<byte>, i: nat, pos: nat, vertices: seq<nat>, normals: seq<nat>,
                    indices: seq<nat>, vertexMap: map<Vec3, nat>)
    returns (ok: bool, pos': nat, vertices': seq<nat>, normals': seq<nat>, indices': seq<nat>, vertexMap': map<Vec3, nat>)
    requires pos == Min(RecordStart(i), |data|)
    ensures ok <==> RecordStart(i) + 48 <= |data|
    ensures ok ==> pos' == Min(RecordStart(i + 1), |data|)
    ensures ok ==> (Reading(vertices', normals', indices', vertexMap')
                    == ReadPartial(Reading(vertices, normals, indices, vertexMap), data, i, VerticesPerRecord))
  {
    pos', vertices', normals', indices', vertexMap' := pos, vertices, normals, indices, vertexMap;
    if pos' + VectorSize > |data| {
      return false, pos', vertices', normals', indices', vertexMap';
    }
    var normal := VectorAt(data, pos');
    pos' := pos' + VectorSize;
    var j: nat := 0;
    while j < 3
      invariant j <= 3
      invariant pos' == RecordStart(i) + 12 * (j + 1) <= |data|
      invariant Reading(vertices', normals', indices', vertexMap') ==
        ReadPartial(Reading(vertices, normals, indices, vertexMap), data, i, j)
    {
      if pos' + VectorSize > |data| {
        return false, pos', vertices', normals', indices', vertexMap';
      }
      var vertex := VectorAt(data, pos');
      pos' := pos' + VectorSize;
      vertices', normals', indices', vertexMap' := AddVertex(vertices', normals', indices', vertexMap', vertex, normal);
      j := j + 1;
    }
    pos' := Min(pos' + 2, |data|);
    ok := true;
  }

  /** The body of the `for j` loop after the read: look the vertex up, append it if new, append its index. */
  method AddVertex(vertices: seq<nat>, normals: seq<nat>, indices: seq<nat>, vertexMap: map<Vec3, nat>, vertex: Vec3, normal: Vec3)
    returns (vertices': seq<nat>, normals': seq<nat>, indices': seq<nat>, vertexMap': map<Vec3, nat>)
    ensures Reading(vertices', normals', indices', vertexMap') == ReadVertex(Reading(vertices, normals, indices, vertexMap), vertex, normal)
  {
    vertices', normals', vertexMap' := vertices, normals, vertexMap;
    if vertex !in vertexMap' {
      vertexMap' := vertexMap'[vertex := |vertices'| / 3];
      vertices' := vertices' + [vertex.x, vertex.y, vertex.z];
      normals' := normals' + [normal.x, normal.y, normal.z];
    }
    indices' := indices + [vertexMap'[vertex]];
  }

  lemma AppendSnoc<T>(a: seq<T>, b: seq<T>, x: T)
    ensures a + (b + [x]) == (a + b) + [x]
  {
  }

  /** Reading the first `j` vertices of a record moves the state from one de-duplication to the next. */
  lemma {:induction false} ExpectedPartial(keys: seq<Vec3>, ns: seq<Vec3>, data: seq<byte>, i: nat, j: nat)
    requires |ns| == |keys| && RecordStart(i) + 12 * (j + 1) <= |data|
    ensures ReadPartial(Expected(keys, ns), data, i, j)
         == Expected(keys + RecordCorners(data, i, j), ns + Repeat(NormalOf(data, i), j))
  {
    if j > 0 {
      ExpectedPartial(keys, ns, data, i, j - 1);
      var v, nv := CornerOf(data, i, j - 1), NormalOf(data, i);
      ExpectedRead(keys + RecordCorners(data, i, j - 1), ns + Repeat(nv, j - 1), v, nv);
      AppendSnoc(keys, RecordCorners(data, i, j - 1), v);
      AppendSnoc(ns, Repeat(nv, j - 1), nv);
    } else {
      AppendEmpty(keys);
      AppendEmpty(ns);
    }
  }

  /** One more vertex read moves the state from the de-duplication of `keys` to that of `keys + [v]`. */
  lemma ExpectedRead(keys: seq<Vec3>, ns: seq<Vec3>, v: Vec3, nv: Vec3)
    requires |ns| == |keys|
    ensures ReadVertex(Expected(keys, ns), v, nv) == Expected(keys + [v], ns + [nv])
  {
    var s := Expected(keys, ns);
    TracksExpected(keys, ns, s);
    TracksRead(keys, ns, s, v, nv);
    TracksExpected(keys + [v], ns + [nv], ReadVertex(s, v, nv));
  }

  /** The `vertex_map` dictionary after reading `keys`: each key maps to its place among the distinct keys. */
  ghost function IndexMap(keys: seq<Vec3>): map<Vec3, nat> {
    map v | v in keys :: IndexIn(Uniq(keys), v)
  }

  /** The reader's state after reading `keys` with normals `ns`, as the de-duplication defines it. */
  ghost function Expected(keys: seq<Vec3>, ns: seq<Vec3>): Reading
    requires |ns| == |keys|
  {
    Reading(Flatten(Uniq(keys)), Flatten(UniqNormals(keys, ns)), Indices(keys), IndexMap(keys))
  }

  lemma TracksExpected(keys: seq<Vec3>, ns: seq<Vec3>, s: Reading)
    requires |ns| == |keys|
    ensures Tracks(keys, ns, s) <==> s == Expected(keys, ns)
  {
    if Tracks(keys, ns, s) {
      forall v | v in s.vertexMap
        ensures s.vertexMap[v] == IndexMap(keys)[v]
      {
        UniqDistinct(keys);
        DistinctIndex(Uniq(keys), v, s.vertexMap[v]);
      }
      assert s.vertexMap == IndexMap(keys);
    }
  }

  /** Before any record the state is empty: the de-duplication of no corners. */
  lemma ExpectedNone()
    ensures Expected([], []) == Reading([], [], [], map[])
  {
    assert IndexMap([]) == map[];
  }

  /** `s` is the reader's state after `n` whole records: the de-duplication of their corners. */
  ghost predicate ReadsAsExpected(data: seq<byte>, n: nat, s: Reading)
    requires n == 0 || RecordStart(n - 1) + 48 <= |data|
  {
    s == Expected(Corners(data, n), CornerNormals(data, n))
  }

  /** Reading record `i` moves the state from the de-duplication of the first `i` records to that of the first `i + 1`. */
  lemma ExpectedStep(data: seq<byte>, i: nat, s: Reading)
    requires RecordStart(i) + 48 <= |data|
    requires ReadsAsExpected(data, i, s)
    ensures ReadsAsExpected(data, i + 1, ReadPartial(s, data, i, VerticesPerRecord))
  {
    ExpectedRecord(Corners(data, i), CornerNormals(data, i), data, i, Corners(data, i + 1), CornerNormals(data, i + 1));
  }

  /** Reading a whole record moves the state from the de-duplication of `keys` to that of `keys'`, which adds the record's vertices. */
  lemma ExpectedRecord(keys: seq<Vec3>, ns: seq<Vec3>, data: seq<byte>, i: nat, keys': seq<Vec3>, ns': seq<Vec3>)
    requires |ns| == |keys| && RecordStart(i) + 48 <= |data|
    requires keys' == keys + RecordCorners(data, i, VerticesPerRecord)
    requires ns' == ns + Repeat(NormalOf(data, i), VerticesPerRecord)
    ensures ReadPartial(Expected(keys, ns), data, i, VerticesPerRecord) == Expected(keys', ns')
  {
    ExpectedPartial(keys, ns, data, i, VerticesPerRecord);
  }

  lemma AppendEmpty<T>(a: seq<T>)
    ensures a + [] == a
  {
  }

  /** One more vertex read keeps the lists and the dictionary in step with the de-duplication of the keys. */
  lemma TracksRead(keys: seq<Vec3>, ns: seq<Vec3>, s: Reading, v: Vec3, nv: Vec3)
    requires Tracks(keys, ns, s)
    ensures Tracks(keys + [v], ns + [nv], ReadVertex(s, v, nv))
  {
    if v in s.vertexMap {
      TracksReadOld(keys, ns, s, v, nv);
    } else {
      TracksReadNew(keys, ns, s, v, nv);
    }
  }

  /** Reading a vertex that is already in the dictionary: only its index is appended. */
  lemma {:induction false} TracksReadOld(keys: seq<Vec3>, ns: seq<Vec3>, s: Reading, v: Vec3, nv: Vec3)
    requires Tracks(keys, ns, s) && v in s.vertexMap
    ensures Tracks(keys + [v], ns + [nv], ReadVertex(s, v, nv))
  {
    SnocOld(keys, ns, v, nv);
    UniqDistinct(keys);
    DistinctIndex(Uniq(keys), v, s.vertexMap[v]);
  }

  /** Reading a vertex seen for the first time: it is appended to the lists and takes the next index. */
  lemma {:induction false} TracksReadNew(keys: seq<Vec3>, ns: seq<Vec3>, s: Reading, v: Vec3, nv: Vec3)
    requires Tracks(keys, ns, s) && v !in s.vertexMap
    ensures Tracks(keys + [v], ns + [nv], ReadVertex(s, v, nv))
  {
    var u := Uniq(keys);
    SnocNew(keys, ns, v, nv);
    FlattenSnoc(u, v);
    FlattenSnoc(UniqNormals(keys, ns), nv);
    var keys', u', m := keys + [v], u + [v], s.vertexMap[v := |s.vertices| / 3];
    assert |s.vertices| / 3 == |u|;
    forall w ensures w in m <==> w in keys' {
      assert w in keys' <==> w in keys || w == v;
    }
    forall w | w in m ensures m[w] < |u'| && u'[m[w]] == w {
      if w != v {
        assert u'[m[w]] == u[s.vertexMap[w]];
      }
    }
  }

  lemma {:induction false} SnocOld(keys: seq<Vec3>, ns: seq<Vec3>, v: Vec3, nv: Vec3)
    requires |ns| == |keys| && v in keys
    ensures Uniq(keys + [v]) == Uniq(keys)
    ensures UniqNormals(keys + [v], ns + [nv]) == UniqNormals(keys, ns)
    ensures Indices(keys + [v]) == Indices(keys) + [IndexIn(Uniq(keys), v)]
  {
    assert Init(keys + [v]) == keys && Init(ns + [nv]) == ns;
  }

  lemma {:induction false} SnocNew(keys: seq<Vec3>, ns: seq<Vec3>, v: Vec3, nv: Vec3)
    requires |ns| == |keys| && v !in keys
    ensures Uniq(keys + [v]) == Uniq(keys) + [v]
    ensures UniqNormals(keys + [v], ns + [nv]) == UniqNormals(keys, ns) + [nv]
    ensures Indices(keys + [v]) == Indices(keys) + [|Uniq(keys)|]
  {
    assert Init(keys + [v]) == keys && Init(ns + [nv]) == ns;
    IndexInLast(Uniq(keys), v);
  }

  /** In a list without repeats, the position of an element is the one it is found at. */
  lemma DistinctIndex(u: seq<Vec3>, x: Vec3, k: nat)
    requires Distinct(u) && k < |u| && u[k] == x
    ensures IndexIn(u, x) == k
  {
  }

  lemma {:induction false} FlattenSnoc(vs: seq<Vec3>, v: Vec3)
    ensures Flatten(vs + [v]) == Flatten(vs) + [v.x, v.y, v.z]
  {
    assert Init(vs + [v]) == vs;
  }

  /** Appending never moves a key that is already present. */
  lemma {:induction false} IndexInAppend(u: seq<Vec3>, tail: seq<Vec3>, w: Vec3)
    requires w in u
    ensures IndexIn(u + tail, w) == IndexIn(u, w)
  {
    var k := IndexIn(u, w);
    assert (u + tail)[k] == w;
  }

  /** Every index names the distinct key it was read as. */
  lemma {:induction false} IndicesSound(keys: seq<Vec3>)
    ensures forall k :: 0 <= k < |keys| ==>
      Indices(keys)[k] < |Uniq(keys)| && Uniq(keys)[Indices(keys)[k]] == keys[k]
  {
    if keys != [] {
      var init := Init(keys);
      IndicesSound(init);
      assert keys == init + [Last(keys)];
      forall k | 0 <= k < |keys|
        ensures Indices(keys)[k] < |Uniq(keys)| && Uniq(keys)[Indices(keys)[k]] == keys[k]
      {
        if k < |init| {
          assert Indices(keys)[k] == Indices(init)[k];
          assert Uniq(keys)[..|Uniq(init)|] == Uniq(init);
        }
      }
    }
  }

  /** The index list of a prefix of the keys is the prefix of the index list. */
  lemma {:induction false} IndicesPrefix(keys: seq<Vec3>, m: nat)
    requires m <= |keys|
    ensures Indices(keys[..m]) == Indices(keys)[..m]
  {
    if m < |keys| {
      IndicesPrefix(Init(keys), m);
      assert Init(keys)[..m] == keys[..m];
    } else {
      assert keys[..m] == keys;
    }
  }

  /** A key read for the first time gets the next unused index: the number of distinct keys before it. */
  lemma {:induction false} IndicesFresh(keys: seq<Vec3>, k: nat)
    requires k < |keys| && keys[k] !in keys[..k]
    ensures Indices(keys)[k] == |Uniq(keys[..k])|
  {
    var pre := keys[..k + 1];
    IndicesPrefix(keys, k + 1);
    assert Init(pre) == keys[..k] && Last(pre) == keys[k];
    assert Indices(pre)[k] == IndexIn(Uniq(pre), keys[k]);
    assert Uniq(pre) == Uniq(keys[..k]) + [keys[k]];
    IndexInLast(Uniq(keys[..k]), keys[k]);
  }

  lemma {:induction false} IndexInLast(u: seq<Vec3>, x: Vec3)
    requires x !in u
    ensures IndexIn(u + [x], x) == |u|
  {
  }

  /** The normal kept for a distinct key is the one that came with its first occurrence. */
  lemma {:induction false} UniqNormalsFirst(keys: seq<Vec3>, ns: seq<Vec3>, x: Vec3)
    requires |ns| == |keys| && x in keys
    ensures UniqNormals(keys, ns)[IndexIn(Uniq(keys), x)] == ns[FirstAt(keys, x)]
  {
    var init := Init(keys);
    assert keys == init + [Last(keys)];
    if x in init {
      UniqNormalsFirst(init, Init(ns), x);
      if Last(keys) !in Uniq(init) {
        IndexInAppend(Uniq(init), [Last(keys)], x);
      }
      FirstAtAppend(init, [Last(keys)], x);
    } else {
      assert FirstAt(keys, x) == |keys| - 1;
    }
  }

  lemma FirstAtAppend(keys: seq<Vec3>, tail: seq<Vec3>, x: Vec3)
    requires x in keys
    ensures FirstAt(keys + tail, x) == FirstAt(keys, x)
  {
    IndexInAppend(keys, tail, x);
  }

  lemma {:induction false} FlattenAt(vs: seq<Vec3>, p: nat)
    requires p < |vs|
    ensures TripleAt(Flatten(vs), p) == vs[p]
  {
    if p < |vs| - 1 {
      FlattenAt(Init(vs), p);
    }
  }

  /** Shape of a successful read: three indices per record, matching vertex and normal lists, every index in range. */
  lemma StlShape(data: seq<byte>)
    requires StlSpec(data).Success?
    ensures var m := StlSpec(data).value;
      && |m.indices| == 3 * TriangleCount(data)
      && |m.vertices| == |m.normals| && |m.vertices| % 3 == 0
      && forall k :: 0 <= k < |m.indices| ==> m.indices[k] < |m.vertices| / 3
  {
    var keys := Corners(data, TriangleCount(data));
    IndicesSound(keys);
    Thirds(|Uniq(keys)|);
  }

  lemma Thirds(u: nat)
    ensures (3 * u) % 3 == 0 && (3 * u) / 3 == u
  {
  }

  /** De-duplication: equal positions share an index, different positions never do; each index leads back to its position. */
  lemma StlDedup(data: seq<byte>, k: nat, k': nat)
    requires StlSpec(data).Success?
    requires k < 3 * TriangleCount(data) && k' < 3 * TriangleCount(data)
    ensures var m := StlSpec(data).value; var keys := Corners(data, TriangleCount(data));
      && 3 * m.indices[k] + 2 < |m.vertices|
      && TripleAt(m.vertices, m.indices[k]) == keys[k]
      && (m.indices[k] == m.indices[k'] <==> keys[k] == keys[k'])
  {
    var keys := Corners(data, TriangleCount(data));
    IndicesSound(keys);
    UniqDistinct(keys);
    FlattenAt(Uniq(keys), Indices(keys)[k]);
  }

  /** First-appearance order: a new position takes the next index, and its normal is that of the record that introduced it. */
  lemma StlFirstAppearance(data: seq<byte>, k: nat)
    requires StlSpec(data).Success? && k < 3 * TriangleCount(data)
    ensures var m := StlSpec(data).value; var n := TriangleCount(data); var keys := Corners(data, n);
      && (keys[k] !in keys[..k] ==> m.indices[k] == |Uniq(keys[..k])|)
      && 3 * m.indices[k] + 2 < |m.normals|
      && TripleAt(m.normals, m.indices[k]) == CornerNormals(data, n)[FirstAt(keys, keys[k])]
  {
    var n := TriangleCount(data);
    var keys := Corners(data, n);
    IndicesSound(keys);
    if keys[k] !in keys[..k] {
      IndicesFresh(keys, k);
    }
    var p := Indices(keys)[k];
    UniqDistinct(keys);
    DistinctIndex(Uniq(keys), keys[k], p);
    UniqNormalsFirst(keys, CornerNormals(data, n), keys[k]);
    FlattenAt(UniqNormals(keys, CornerNormals(data, n)), p);
  }

  /** One record whose three vertices differ gives nine coordinates, nine normal components and indices 0, 1, 2. */
  lemma OneTriangle(data: seq<byte>)
    requires TriangleCount(data) == 1 && |data| >= RecordStart(0) + 48
    requires CornerOf(data, 0, 0) != CornerOf(data, 0, 1) && CornerOf(data, 0, 1) != CornerOf(data, 0, 2)
    requires CornerOf(data, 0, 0) != CornerOf(data, 0, 2)
    ensures StlSpec(data).Success?
    ensures |StlSpec(data).value.vertices| == 9 && |StlSpec(data).value.normals| == 9
    ensures StlSpec(data).value.indices == [0, 1, 2]
  {
    var keys := Corners(data, 1);
    var a, b, c := CornerOf(data, 0, 0), CornerOf(data, 0, 1), CornerOf(data, 0, 2);
    assert RecordCorners(data, 0, 1) == [a];
    assert RecordCorners(data, 0, 2) == [a, b];
    assert keys == [a, b, c];
    assert Init(keys) == [a, b] && Init([a, b]) == [a] && Init([a]) == [];
    assert Uniq([a]) == [a];
    assert Uniq([a, b]) == [a, b];
    assert Uniq(keys) == [a, b, c];
    assert Indices([a]) == [0];
    assert IndexIn([a, b], b) == 1;
    assert Indices([a, b]) == [0, 1];
    assert IndexIn([a, b, c], c) == 2;
  }
}
