/**
 * The manual path of the backend's OBJ reader (`read_obj_to_json`). `v` lines give
 * vertex coordinates, `vn` lines give normals and `f` lines give faces. The tokens of a
 * face (`v`, `v/t`, `v/t/n` or `v//n`) become 0-based vertex indices. Faces with more
 * than three vertices are split into triangles. A per-vertex normal array is grown with
 * zeros whenever a face token names a normal, and then that vertex's triple is overwritten.
 *
 * Coordinate tokens are kept as the text `float` would read. Whether `float` accepts
 * them is not part of this model.
 */
module ObjReader {
  import opened Wrappers
  import opened Text

  /** The three coordinate tokens of a `vn` line (one entry of `temp_normals`). */
  datatype Triple = Triple(x: string, y: string, z: string)

  /** An entry of the `vertex_normals` list: a padding `0` or a coordinate copied from a `vn` line. */
  datatype Component = Zero | Coord(token: string)

  /** The lists the line loop builds: `vertices`, `temp_normals`, `faces`, `vertex_normals`. */
  datatype ObjState = ObjState(vertices: seq<string>, normals: seq<Triple>, faces: seq<int>, vertexNormals: seq<Component>)

  /**
   * What the manual path returns. `normals == None` is the branch where no face named a
   * normal and the normals are left to the geometry library to compute.
   */
  datatype ObjMesh = ObjMesh(vertices: seq<string>, normals: Option<seq<Component>>, indices: seq<int>)

  function Max(a: int, b: int): int {
    if a >= b then a else b
  }

  /** Python's `xs[1:]`, which is empty on an empty list. */
  function Rest<T>(xs: seq<T>): seq<T> {
    if xs == [] then [] else xs[1..]
  }

  // ---------------------------------------------------------------------------------
  // Triangulation

  /** The fan around the first vertex: the triangles `(fi[0], fi[t], fi[t + 1])` for `t` from 1 to `|fi| - 2`. */
  function Fan(fi: seq<int>): (tris: seq<int>)
    ensures |tris| == 3 * Max(|fi| - 2, 0)
  {
    FanUpTo(fi, Max(|fi| - 2, 0))
  }

  /** The first `t` triangles of the fan. */
  function FanUpTo(fi: seq<int>, t: nat): (tris: seq<int>)
    requires t == 0 || t + 1 < |fi|
    ensures |tris| == 3 * t
  {
    if t == 0 then [] else FanUpTo(fi, t - 1) + [fi[0], fi[t], fi[t + 1]]
  }

  /** The three cases of the reader (a triangle, a quad, a larger polygon) all give the fan. */
  method Triangulate(fi: seq<int>) returns (tris: seq<int>)
    ensures tris == Fan(fi)
  {
    if |fi| == 3 {
      tris := fi;
      assert FanUpTo(fi, 1) == [fi[0], fi[1], fi[2]] == fi;
    } else if |fi| == 4 {
      tris := [fi[0], fi[1], fi[2]] + [fi[0], fi[2], fi[3]];
      assert FanUpTo(fi, 1) == [fi[0], fi[1], fi[2]];
    } else {
      tris := [];
      var i := 1;
      while i < |fi| - 1
        invariant 1 <= i <= Max(|fi| - 1, 1)
        invariant tris == FanUpTo(fi, i - 1)
      {
        tris := tris + [fi[0], fi[i], fi[i + 1]];
        i := i + 1;
      }
    }
  }

  /** Triangle `t` of the fan is `(fi[0], fi[t + 1], fi[t + 2])`, and nothing else is in it. */
  lemma {:induction false} FanTriangle(fi: seq<int>, n: nat, t: nat)
    requires (n == 0 || n + 1 < |fi|) && t < n
    ensures FanUpTo(fi, n)[3 * t..3 * t + 3] == [fi[0], fi[t + 1], fi[t + 2]]
  {
    var f := FanUpTo(fi, n);
    if t < n - 1 {
      FanTriangle(fi, n - 1, t);
      assert f[3 * t..3 * t + 3] == FanUpTo(fi, n - 1)[3 * t..3 * t + 3];
    } else {
      assert f[3 * t..3 * t + 3] == [fi[0], fi[n], fi[n + 1]];
    }
  }

  // ---------------------------------------------------------------------------------
  // Normals

  function Zeros(n: nat): (zs: seq<Component>)
    ensures |zs| == n && forall k :: 0 <= k < n ==> zs[k] == Zero
  {
    seq(n, _ => Zero)
  }

  /** `vertex_normals` after `while len(vertex_normals) <= need: vertex_normals.append(0)`. */
  function Padded(vn: seq<Component>, need: int): (r: seq<Component>)
    ensures |r| == Max(|vn|, need + 1)
    ensures r[..|vn|] == vn
    ensures forall k :: |vn| <= k < |r| ==> r[k] == Zero
  {
    if need < |vn| then vn else vn + Zeros(need + 1 - |vn|)
  }

  /** The zero-padding loop. */
  method PadNormals(vn: seq<Component>, need: int) returns (vn': seq<Component>)
    ensures vn' == Padded(vn, need)
  {
    vn' := vn;
    while |vn'| <= need
      invariant |vn'| <= Max(|vn|, need + 1)
      invariant vn' == vn + Zeros(|vn'| - |vn|)
      decreases need + 1 - |vn'|
    {
      vn' := vn' + [Zero];
    }
    assert |vn'| == Max(|vn|, need + 1);
  }

  /**
   * The three assignments `vertex_normals[p + c] = n[c]`, each with Python's indexing
   * (negative positions count from the end); `None` is the `IndexError`.
   */
  function CopyNormal(vn: seq<Component>, p: int, n: Triple): (r: Option<seq<Component>>)
    ensures r.Some? <==> -|vn| <= p && p + 2 < |vn|
  {
    match (PyIndex(|vn|, p), PyIndex(|vn|, p + 1), PyIndex(|vn|, p + 2))
    case (Some(a), Some(b), Some(c)) => Some(vn[a := Coord(n.x)][b := Coord(n.y)][c := Coord(n.z)])
    case _ => None
  }

  /**
   * For a vertex index `vi >= 0`, padding then copying always succeeds: the array covers
   * `3 * vi + 2`, the vertex's triple is the normal (whatever was there before), every
   * other old entry is kept, and every other new entry is a zero.
   */
  lemma PadAndCopy(vn: seq<Component>, vi: nat, n: Triple)
    ensures var r := CopyNormal(Padded(vn, 3 * vi + 2), 3 * vi, n);
      && r.Some?
      && |r.value| == Max(|vn|, 3 * vi + 3)
      && r.value[3 * vi..3 * vi + 3] == [Coord(n.x), Coord(n.y), Coord(n.z)]
      && (forall k :: 0 <= k < |r.value| && !(3 * vi <= k < 3 * vi + 3) ==>
            r.value[k] == if k < |vn| then vn[k] else Zero)
  {
    var padded := Padded(vn, 3 * vi + 2);
    var r := CopyNormal(padded, 3 * vi, n);
    assert r.value == padded[3 * vi := Coord(n.x)][3 * vi + 1 := Coord(n.y)][3 * vi + 2 := Coord(n.z)];
    forall k | 0 <= k < |vn|
      ensures padded[k] == vn[k]
    {
      assert padded[..|vn|][k] == vn[k];
    }
  }

  // ---------------------------------------------------------------------------------
  // Faces

  /**
   * One face token: its 0-based vertex index `int(fields[0]) - 1`, and the normal array
   * after the copy a non-empty third field triggers. `None` is a `ValueError` or an
   * `IndexError`, which abandons the manual path.
   */
  function ReadToken(vn: seq<Component>, normals: seq<Triple>, part: string): (r: Option<(int, seq<Component>)>)
    ensures r.Some? ==> ParseInt(SplitOn(part, '/')[0]) == Some(r.value.0 + 1)
  {
    var fields := SplitOn(part, '/');
    match ParseInt(fields[0])
    case None => None
    case Some(v) =>
      var vi := v - 1;
      if |fields| >= 3 && fields[2] != [] then
        match ParseInt(fields[2])
        case None => None
        case Some(m) =>
          match PyIndex(|normals|, m - 1)
          case None => None
          case Some(q) =>
            match CopyNormal(Padded(vn, 3 * vi + 2), 3 * vi, normals[q])
            case None => None
            case Some(vn') => Some((vi, vn'))
      else
        Some((vi, vn))
  }

  /**
   * The first `k` tokens of a face: their vertex indices and the normal array after them.
   * Each index is one less than the integer before its token's first `/`.
   */
  function ReadFace(vn: seq<Component>, normals: seq<Triple>, parts: seq<string>, k: nat): (r: Option<(seq<int>, seq<Component>)>)
    requires k <= |parts|
    ensures r.Some? ==> |r.value.0| == k
    ensures r.Some? ==> forall j :: 0 <= j < k ==> ParseInt(SplitOn(parts[j], '/')[0]) == Some(r.value.0[j] + 1)
  {
    if k == 0 then Some(([], vn))
    else
      match ReadFace(vn, normals, parts, k - 1)
      case None => None
      case Some((fi, vn')) =>
        match ReadToken(vn', normals, parts[k - 1])
        case None => None
        case Some((vi, vn'')) => Some((fi + [vi], vn''))
  }

  /** The token loop of an `f` line. */
  method ReadFaceTokens(vn: seq<Component>, normals: seq<Triple>, parts: seq<string>)
    returns (r: Option<(seq<int>, seq<Component>)>)
    ensures r == ReadFace(vn, normals, parts, |parts|)
  {
    var fi: seq<int> := [];
    var vn' := vn;
    for k := 0 to |parts|
      invariant ReadFace(vn, normals, parts, k) == Some((fi, vn'))
    {
      var next := ReadFaceStep(vn, normals, parts, k, fi, vn');
      if next.None? {
        FailureSticks(vn, normals, parts, k + 1);
        return None;
      }
      fi, vn' := next.value.0, next.value.1;
    }
    return Some((fi, vn'));
  }

  /** One pass of the token loop: token `k` read on top of the first `k`. */
  method ReadFaceStep(vn: seq<Component>, normals: seq<Triple>, parts: seq<string>, k: nat, fi: seq<int>, vn': seq<Component>)
    returns (r: Option<(seq<int>, seq<Component>)>)
    requires k < |parts| && ReadFace(vn, normals, parts, k) == Some((fi, vn'))
    ensures r == ReadFace(vn, normals, parts, k + 1)
  {
    var t := ReadTokenStep(vn', normals, parts[k]);
    if t.None? {
      return None;
    }
    return Some((fi + [t.value.0], t.value.1));
  }

  /** Once a token fails, the whole face fails. */
  lemma {:induction false} FailureSticks(vn: seq<Component>, normals: seq<Triple>, parts: seq<string>, k: nat)
    requires k <= |parts| && ReadFace(vn, normals, parts, k).None?
    ensures ReadFace(vn, normals, parts, |parts|).None?
    decreases |parts| - k
  {
    if k < |parts| {
      FailureSticks(vn, normals, parts, k + 1);
    }
  }

  /** One pass of the `for part in parts` loop body. */
  method ReadTokenStep(vn: seq<Component>, normals: seq<Triple>, part: string) returns (r: Option<(int, seq<Component>)>)
    ensures r == ReadToken(vn, normals, part)
  {
    var fields := SplitOn(part, '/');
    var v := ParseInt(fields[0]);
    if v.None? {
      return None;
    }
    var vi := v.value - 1;
    if |fields| >= 3 && fields[2] != [] {
      var m := ParseInt(fields[2]);
      if m.None? {
        return None;
      }
      var vn' := PadNormals(vn, 3 * vi + 2);
      var q := PyIndex(|normals|, m.value - 1);
      if q.None? {
        return None;
      }
      var copied := CopyNormal(vn', 3 * vi, normals[q.value]);
      if copied.None? {
        return None;
      }
      return Some((vi, copied.value));
    }
    return Some((vi, vn));
  }

  // ---------------------------------------------------------------------------------
  // Lines

  /** The `f` branch: the tokens are read, then their fan is appended and the normal array replaced. */
  function AddFace(st: ObjState, parts: seq<string>): Option<ObjState> {
    match ReadFace(st.vertexNormals, st.normals, parts, |parts|)
    case None => None
    case Some((fi, vn)) => Some(st.(faces := st.faces + Fan(fi), vertexNormals := vn))
  }

  /** One line of the file; lines that start with none of `v `, `vn `, `f ` are skipped. */
  function ReadLine(st: ObjState, line: string): Option<ObjState>
  {
    if StartsWith(line, "v ") then
      var parts := Words(line);
      if |parts| < 4 then None else Some(st.(vertices := st.vertices + parts[1..4]))
    else if StartsWith(line, "vn ") then
      var parts := Words(line);
      if |parts| < 4 then None else Some(st.(normals := st.normals + [Triple(parts[1], parts[2], parts[3])]))
    else if StartsWith(line, "f ") then
      AddFace(st, Rest(Words(line)))
    else
      Some(st)
  }

  /** The state after the first `n` lines; `None` once a line has raised. */
  function ReadLines(lines: seq<string>, n: nat): Option<ObjState>
    requires n <= |lines|
  {
    if n == 0 then Some(ObjState([], [], [], []))
    else
      match ReadLines(lines, n - 1)
      case None => None
      case Some(st) => ReadLine(st, lines[n - 1])
  }

  /** What the manual path of `read_obj_to_json` produces from the lines of the file; `None` is the exception. */
  function ObjSpec(lines: seq<string>): Option<ObjMesh> {
    match ReadLines(lines, |lines|)
    case None => None
    case Some(st) => Some(ObjMesh(st.vertices, if st.vertexNormals == [] then None else Some(st.vertexNormals), st.faces))
  }

  /** The reader: the `for line in f` loop, then the choice of normals. */
  method ReadObjManual(lines: seq<string>) returns (r: Option<ObjMesh>)
    ensures r == ObjSpec(lines)
  {
    var st := ObjState([], [], [], []);
    var i := 0;
    while i < |lines|
      invariant i <= |lines|
      invariant ReadLines(lines, i) == Some(st)
    {
      var next := ReadLineStep(st, lines[i]);
      if next.None? {
        LinesFailureSticks(lines, i + 1);
        return None;
      }
      st := next.value;
      i := i + 1;
    }
    if st.vertexNormals == [] {
      return Some(ObjMesh(st.vertices, None, st.faces));
    }
    return Some(ObjMesh(st.vertices, Some(st.vertexNormals), st.faces));
  }

  /** One pass of the line loop body. */
  method ReadLineStep(st: ObjState, line: string) returns (r: Option<ObjState>)
    ensures r == ReadLine(st, line)
  {
    if StartsWith(line, "v ") {
      var parts := Words(line);
      if |parts| < 4 {
        return None;
      }
      return Some(st.(vertices := st.vertices + parts[1..4]));
    } else if StartsWith(line, "vn ") {
      var parts := Words(line);
      if |parts| < 4 {
        return None;
      }
      return Some(st.(normals := st.normals + [Triple(parts[1], parts[2], parts[3])]));
    } else if StartsWith(line, "f ") {
      var parts := Rest(Words(line));
      var face := ReadFaceTokens(st.vertexNormals, st.normals, parts);
      if face.None? {
        return None;
      }
      var tris := Triangulate(face.value.0);
      return Some(st.(faces := st.faces + tris, vertexNormals := face.value.1));
    }
    return Some(st);
  }

  /** Once a line fails, the whole read fails. */
  lemma {:induction false} LinesFailureSticks(lines: seq<string>, n: nat)
    requires n <= |lines| && ReadLines(lines, n).None?
    ensures ReadLines(lines, |lines|).None?
    decreases |lines| - n
  {
    if n < |lines| {
      LinesFailureSticks(lines, n + 1);
    }
  }

  // ---------------------------------------------------------------------------------
  // Properties of the whole read

  /** Vertices come in coordinate triples and faces in index triples. */
  lemma {:induction false} LinesShape(lines: seq<string>, n: nat)
    requires n <= |lines| && ReadLines(lines, n).Some?
    ensures |ReadLines(lines, n).value.vertices| % 3 == 0
    ensures |ReadLines(lines, n).value.faces| % 3 == 0
  {
    if n > 0 {
      LinesShape(lines, n - 1);
      LineShape(ReadLines(lines, n - 1).value, lines[n - 1]);
    }
  }

  /** One line keeps both lists whole triples. */
  lemma LineShape(st: ObjState, line: string)
    requires ReadLine(st, line).Some? && |st.vertices| % 3 == 0 && |st.faces| % 3 == 0
    ensures |ReadLine(st, line).value.vertices| % 3 == 0 && |ReadLine(st, line).value.faces| % 3 == 0
  {
    if StartsWith(line, "v ") {
      AddTriples(|st.vertices|, 1);
    } else if !StartsWith(line, "vn ") && StartsWith(line, "f ") {
      var parts := Rest(Words(line));
      var fi := ReadFace(st.vertexNormals, st.normals, parts, |parts|).value.0;
      AddTriples(|st.faces|, Max(|fi| - 2, 0));
    }
  }

  lemma AddTriples(a: nat, t: nat)
    requires a % 3 == 0
    ensures (a + 3 * t) % 3 == 0
  {
  }

  /** The returned vertex list is a multiple of three long, and so is the index list. */
  lemma ObjShape(lines: seq<string>)
    requires ObjSpec(lines).Some?
    ensures |ObjSpec(lines).value.vertices| % 3 == 0 && |ObjSpec(lines).value.indices| % 3 == 0
  {
    LinesShape(lines, |lines|);
  }

  /** A `v` line with fewer than three coordinates raises, so the manual path gives no mesh. */
  lemma ShortVertexLine(lines: seq<string>, k: nat)
    requires k < |lines| && StartsWith(lines[k], "v ") && |Words(lines[k])| < 4
    ensures ObjSpec(lines).None?
  {
    assert ReadLines(lines, k + 1).None?;
    LinesFailureSticks(lines, k + 1);
  }

  /** A face naming a vertex index with no integer in front of its first `/` raises, too. */
  lemma BadFaceToken(vn: seq<Component>, normals: seq<Triple>, parts: seq<string>, j: nat)
    requires j < |parts| && ParseInt(SplitOn(parts[j], '/')[0]).None?
    ensures ReadFace(vn, normals, parts, |parts|).None?
  {
  }

  // ---------------------------------------------------------------------------------
  // When tokens and faces read

  /** A token whose first field is an integer and that has no non-empty third field (`v`, `v/t`, `v//`). */
  predicate PlainToken(part: string) {
    var fields := SplitOn(part, '/');
    ParseInt(fields[0]).Some? && !(|fields| >= 3 && fields[2] != [])
  }

  /** A plain token reads as its integer less one, and leaves the normal array as it was. */
  lemma TokenPlain(vn: seq<Component>, normals: seq<Triple>, part: string)
    requires PlainToken(part)
    ensures ReadToken(vn, normals, part) == Some((ParseInt(SplitOn(part, '/')[0]).value - 1, vn))
  {
  }

  /**
   * A token `v/t/m` with `v >= 1` and `1 <= m <= |normals|` reads as `v - 1`. The normal
   * array comes back covering vertex `v - 1`, whose triple holds normal `m`; every other
   * old entry is kept and every other new entry is a zero.
   */
  lemma TokenWithNormal(vn: seq<Component>, normals: seq<Triple>, part: string)
    requires |SplitOn(part, '/')| >= 3
    requires ParseInt(SplitOn(part, '/')[0]).Some? && ParseInt(SplitOn(part, '/')[0]).value >= 1
    requires ParseInt(SplitOn(part, '/')[2]).Some? && 1 <= ParseInt(SplitOn(part, '/')[2]).value <= |normals|
    ensures var fields := SplitOn(part, '/');
      var vi := ParseInt(fields[0]).value - 1; var n := normals[ParseInt(fields[2]).value - 1];
      var r := ReadToken(vn, normals, part);
      && r.Some? && r.value.0 == vi
      && |r.value.1| == Max(|vn|, 3 * vi + 3)
      && r.value.1[3 * vi..3 * vi + 3] == [Coord(n.x), Coord(n.y), Coord(n.z)]
      && forall k :: 0 <= k < |r.value.1| && !(3 * vi <= k < 3 * vi + 3) ==>
           r.value.1[k] == if k < |vn| then vn[k] else Zero
  {
    var fields := SplitOn(part, '/');
    PadAndCopy(vn, ParseInt(fields[0]).value - 1, normals[ParseInt(fields[2]).value - 1]);
  }

  /**
   * A face whose tokens are all plain reads: one index per token (each its integer less one,
   * as `ReadFace` promises), and the normal array unchanged.
   */
  lemma {:induction false} FacePlain(vn: seq<Component>, normals: seq<Triple>, parts: seq<string>, k: nat)
    requires k <= |parts| && forall j :: 0 <= j < |parts| ==> PlainToken(parts[j])
    ensures ReadFace(vn, normals, parts, k).Some? && ReadFace(vn, normals, parts, k).value.1 == vn
  {
    if k > 0 {
      FacePlain(vn, normals, parts, k - 1);
      TokenPlain(vn, normals, parts[k - 1]);
    }
  }

  /** A `v` line with three coordinate words appends them to the vertices. */
  lemma VertexLine(st: ObjState, x: string, y: string, z: string)
    requires IsWord(x) && IsWord(y) && IsWord(z)
    ensures ReadLine(st, JoinWords(["v", x, y, z])) == Some(st.(vertices := st.vertices + [x, y, z]))
  {
    var ws := ["v", x, y, z];
    assert IsWord("v");
    WordsOfJoin(ws);
    assert ws[1..] == [x, y, z];
    var line := JoinWords(ws);
    assert line == "v" + " " + JoinWords([x, y, z]);
    assert line[..2] == "v ";
    assert Words(line)[1..4] == [x, y, z];
  }

  /** A line starting `f ` is read by the `f` branch. */
  lemma FaceLine(st: ObjState, line: string)
    requires |line| >= 2 && line[0] == 'f' && line[1] == ' '
    ensures ReadLine(st, line) == AddFace(st, Rest(Words(line)))
  {
    assert line[..2] == "f ";
    assert "v "[0] == 'v' && "vn "[0] == 'v';
  }

  /** A face of plain tokens appends the fan of their indices and leaves the normal array alone. */
  lemma PlainFace(st: ObjState, parts: seq<string>)
    requires forall j :: 0 <= j < |parts| ==> PlainToken(parts[j])
    ensures ReadFace(st.vertexNormals, st.normals, parts, |parts|).Some?
    ensures AddFace(st, parts) == Some(st.(faces := st.faces + Fan(ReadFace(st.vertexNormals, st.normals, parts, |parts|).value.0)))
  {
    FacePlain(st.vertexNormals, st.normals, parts, |parts|);
  }

  /** The lines of a unit square: four corners, then one quad. */
  function SquareLines(): seq<string> {
    [JoinWords(["v", "0", "0", "0"]), JoinWords(["v", "1", "0", "0"]), JoinWords(["v", "1", "1", "0"]),
     JoinWords(["v", "0", "1", "0"]), JoinWords(["f", "1", "2", "3", "4"])]
  }

  /** A `v` line after the first `n` lines appends its three coordinates. */
  lemma VertexStep(lines: seq<string>, n: nat, st: ObjState, x: string, y: string, z: string)
    requires n < |lines| && ReadLines(lines, n) == Some(st)
    requires lines[n] == JoinWords(["v", x, y, z]) && IsWord(x) && IsWord(y) && IsWord(z)
    ensures ReadLines(lines, n + 1) == Some(st.(vertices := st.vertices + [x, y, z]))
  {
    VertexLine(st, x, y, z);
  }

  /** After the four `v` lines: their coordinates, and nothing else. */
  lemma SquareVertices()
    ensures ReadLines(SquareLines(), 4) == Some(ObjState(["0", "0", "0", "1", "0", "0", "1", "1", "0", "0", "1", "0"], [], [], []))
  {
    SquareCoordinates();
    var lines := SquareLines();
    assert IsWord("0") && IsWord("1");
    var st := ObjState([], [], [], []);
    VertexStep(lines, 0, st, "0", "0", "0");
    st := st.(vertices := st.vertices + ["0", "0", "0"]);
    VertexStep(lines, 1, st, "1", "0", "0");
    st := st.(vertices := st.vertices + ["1", "0", "0"]);
    VertexStep(lines, 2, st, "1", "1", "0");
    st := st.(vertices := st.vertices + ["1", "1", "0"]);
    VertexStep(lines, 3, st, "0", "1", "0");
  }

  lemma SquareCoordinates()
    ensures ([] + ["0", "0", "0"]) + ["1", "0", "0"] + ["1", "1", "0"] + ["0", "1", "0"]
      == ["0", "0", "0", "1", "0", "0", "1", "1", "0", "0", "1", "0"]
  {
  }

  /** A decimal numeral is a plain token naming that number. */
  lemma NumeralToken(d: nat)
    ensures IsWord(Decimal(d)) && PlainToken(Decimal(d))
    ensures ParseInt(SplitOn(Decimal(d), '/')[0]) == Some(d)
  {
    var w := Decimal(d);
    assert '/' !in w by {
      forall k | 0 <= k < |w| ensures w[k] != '/' { assert IsDigit(w[k]); }
    }
    SplitWhole(w, '/', []);
    assert [] + w == w;
    ParseDecimal(d);
    forall k | 0 <= k < |w| ensures !IsPyWhitespace(w[k]) { assert IsDigit(w[k]); }
  }

  /** The words of the face line `f 1 2 3 4`. */
  lemma SquareFaceWords()
    ensures var line := SquareLines()[4];
      |line| >= 2 && line[0] == 'f' && line[1] == ' ' && Words(line) == ["f", "1", "2", "3", "4"]
  {
    assert IsWord("f") && IsWord("1") && IsWord("2") && IsWord("3") && IsWord("4");
    WordsOfJoin(["f", "1", "2", "3", "4"]);
  }

  /** The quad `0 1 2 3` splits into the triangles `0 1 2` and `0 2 3`. */
  lemma QuadFan()
    ensures Fan([0, 1, 2, 3]) == [0, 1, 2, 0, 2, 3]
  {
  }

  /** Four plain tokens naming 1 to 4 read as the indices 0 to 3 and leave the normal array alone. */
  lemma CountingFace(vn: seq<Component>, normals: seq<Triple>, parts: seq<string>)
    requires |parts| == 4
    requires forall j :: 0 <= j < 4 ==> PlainToken(parts[j]) && ParseInt(SplitOn(parts[j], '/')[0]) == Some(j + 1)
    ensures ReadFace(vn, normals, parts, 4) == Some(([0, 1, 2, 3], vn))
  {
    FacePlain(vn, normals, parts, 4);
    var fi := ReadFace(vn, normals, parts, 4).value.0;
    assert forall j :: 0 <= j < 4 ==> fi[j] == j;
    assert fi == [0, 1, 2, 3];
  }

  /** The token `1`, `2`, `3` or `4` is plain and names its own number. */
  lemma SmallNumeral(d: nat)
    requires 1 <= d <= 4
    ensures var t := ["1", "2", "3", "4"][d - 1];
      PlainToken(t) && ParseInt(SplitOn(t, '/')[0]) == Some(d)
  {
    NumeralToken(d);
    assert Decimal(d) == ["1", "2", "3", "4"][d - 1];
  }

  /** The tokens `1 2 3 4` read as the indices 0 to 3 and leave the normal array alone. */
  lemma SquareIndices(vn: seq<Component>, normals: seq<Triple>)
    ensures ReadFace(vn, normals, ["1", "2", "3", "4"], 4) == Some(([0, 1, 2, 3], vn))
  {
    forall j | 0 <= j < 4
      ensures PlainToken(["1", "2", "3", "4"][j]) && ParseInt(SplitOn(["1", "2", "3", "4"][j], '/')[0]) == Some(j + 1)
    {
      SmallNumeral(j + 1);
    }
    CountingFace(vn, normals, ["1", "2", "3", "4"]);
  }

  /** The face line `f 1 2 3 4` adds the two triangles of the quad. */
  lemma SquareFace(st: ObjState)
    ensures ReadLine(st, SquareLines()[4]) == Some(st.(faces := st.faces + [0, 1, 2, 0, 2, 3]))
  {
    SquareFaceWords();
    assert Rest(Words(SquareLines()[4])) == ["1", "2", "3", "4"];
    FaceLine(st, SquareLines()[4]);
    SquareIndices(st.vertexNormals, st.normals);
    QuadFan();
  }

  /** A whole file: four `v` lines and the quad `f 1 2 3 4` give two triangles, and no normals. */
  lemma UnitSquare()
    ensures ObjSpec(SquareLines())
      == Some(ObjMesh(["0", "0", "0", "1", "0", "0", "1", "1", "0", "0", "1", "0"], None, [0, 1, 2, 0, 2, 3]))
  {
    var lines := SquareLines();
    SquareVertices();
    var st := ReadLines(lines, 4).value;
    SquareFace(st);
    assert ReadLines(lines, 5) == ReadLine(st, lines[4]);
    assert [] + [0, 1, 2, 0, 2, 3] == [0, 1, 2, 0, 2, 3];
  }
}
