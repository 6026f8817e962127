/** The mesh dictionaries the backend returns to the client, and the client's two slots. */
module Meshes {

  /** The two comparison slots, `A` and `B`. */
  datatype Slot = A | B

  /** `{"vertices", "normals", "indices"}`: flat x, y, z lists and a flat triangle index list. */
  datatype MeshData = MeshData(vertices: seq<real>, normals: seq<real>, indices: seq<int>)

  /** The vertex count of a mesh: the number of x, y, z triples in its vertex list. */
  function VertexCount(m: MeshData): nat {
    |m.vertices| / 3
  }
}
